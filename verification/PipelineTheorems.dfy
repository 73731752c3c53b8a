// The pipeline's guarantees, for every schedule of every number of workers.
module PipelineTheorems {
  import opened Base
  import opened Frames
  import opened EventLoop
  import opened Pipeline
  import opened PipelineSafety
  import opened PipelineInputs

  // ---- Refinement of sequential decoding

  lemma {:induction false} SequentialPrefix<S>(d: Decoding<S>, roots: seq<Layer>, n: nat)
    requires n <= |roots|
    ensures |Sequential(d, roots).1| == |roots|
    ensures Sequential(d, roots[..n]).1 == Sequential(d, roots).1[..n]
    ensures forall i :: 0 <= i < |roots| ==> Sequential(d, roots).1[i].index == i
  {
    if roots == [] {
    } else {
      var init := roots[..|roots| - 1];
      if n == |roots| {
        assert roots[..n] == roots;
        SequentialPrefix(d, init, 0);
      } else {
        SequentialPrefix(d, init, n);
        assert init[..n] == roots[..n];
      }
    }
  }

  // Frame i of the reference is decoded with what the serial decoders remember of the frames before it.
  lemma SequentialAt<S>(d: Decoding<S>, roots: seq<Layer>, i: nat)
    requires i < |roots|
    ensures |Sequential(d, roots).1| == |roots|
    ensures Sequential(d, roots).1[i].body
      == d.serial(Sequential(d, roots[..i]).0, d.parallel(Fresh(roots[i]))).1
  {
    var upTo := roots[..i + 1];
    SequentialPrefix(d, roots, i + 1);
    SequentialPrefix(d, upTo, i);
    assert upTo[..|upTo| - 1] == roots[..i] && upTo[i] == roots[i];
    assert Sequential(d, roots).1[i] == Sequential(d, upTo).1[i];
  }

  lemma NextIsPrefix<S>(s: State<S>)
    requires LogOk(s)
    ensures s.next <= |Accepted(s)| && Flatten(s.log[..s.emitted]) == Accepted(s)[..s.next]
  {
    assert s.log == s.log[..s.emitted] + s.log[s.emitted..];
    FlattenAppend(s.log[..s.emitted], s.log[s.emitted..]);
  }

  // The store, and what is on its way to it, against decoding some frames one after the other.
  ghost predicate Refines<S>(d: Decoding<S>, roots: seq<Layer>, s: State<S>)
  {
    var reference := Sequential(d, roots).1;
    && |reference| == |roots|
    && s.next <= |reference|
    && s.store + Storing(s.channel) == reference[..s.next]
    && s.store <= reference
  }

  lemma InvRefines<S>(d: Decoding<S>, s: State<S>)
    requires LogOk(s) && InStep(d, s)
    ensures Refines(d, Accepted(s), s)
  {
    NextIsPrefix(s);
    SequentialPrefix(d, Accepted(s), s.next);
    var reference := Sequential(d, Accepted(s)).1;
    assert s.store <= s.store + Storing(s.channel) == reference[..s.next];
  }

  lemma RefinesMore<S>(d: Decoding<S>, roots: seq<Layer>, more: seq<Layer>, s: State<S>)
    requires Refines(d, roots, s)
    ensures Refines(d, roots + more, s)
  {
    SequentialPrefix(d, roots + more, |roots|);
    assert (roots + more)[..|roots|] == roots;
    assert Sequential(d, roots).1 == Sequential(d, roots + more).1[..|roots|];
  }

  /** However inputs, event loop, workers and serial decoder interleave, the store is a prefix of what
      decoding the layers that the schedule pushes one at a time produces, and with the frames on their way
      to it, it is exactly the first `next` of them. */
  lemma ConcurrentRefinesSequential<S>(d: Decoding<S>, workers: nat, schedule: seq<Step>)
    requires |Accepted(Run(d, workers, schedule))| <= TWO_32
    ensures Refines(d, Offered(schedule), Run(d, workers, schedule))
  {
    var s := Run(d, workers, schedule);
    RunInv(d, workers, schedule);
    InvRefines(d, s);
    OfferedIsAccepted(d, workers, schedule);
    RefinesMore(d, Accepted(s), Layers(Outside(s.channel)), s);
  }

  predicate IndexIsPosition(store: seq<Frame>)
  {
    forall i :: 0 <= i < |store| ==> store[i].index == i
  }

  lemma RefinesPositions<S>(d: Decoding<S>, roots: seq<Layer>, s: State<S>)
    requires Refines(d, roots, s)
    ensures IndexIsPosition(s.store)
  {
    SequentialPrefix(d, roots, 0);
  }

  /** The frame at position i of the store has index i. */
  lemma StoredIndexIsPosition<S>(d: Decoding<S>, workers: nat, schedule: seq<Step>)
    requires |Accepted(Run(d, workers, schedule))| <= TWO_32
    ensures IndexIsPosition(Run(d, workers, schedule).store)
  {
    ConcurrentRefinesSequential(d, workers, schedule);
    RefinesPositions(d, Offered(schedule), Run(d, workers, schedule));
  }

  // ---- Conservation

  // The batch lies somewhere between acceptance and the serial decoder.
  ghost predicate Travels<S>(s: State<S>, b: Batch)
  {
    || b in s.parallelQueue || b in s.hands || b in Returning(s.channel) || b in s.serialQueue
    || (First(b) in s.pending && s.pending[First(b)] == b)
  }

  predicate Contiguous(b: Batch)
  {
    b != [] && forall k :: 0 <= k < |b| ==> b[k].index == b[0].index + k
  }

  lemma RawContiguous<S>(d: Decoding<S>, log: seq<seq<Layer>>, j: nat)
    requires j < |log| && (forall k :: 0 <= k < |log| ==> log[k] != []) && |Flatten(log)| <= TWO_32
    ensures Start(log, j) + |log[j]| <= |Flatten(log)|
    ensures Contiguous(Raw(log, j)) && Contiguous(ParallelBatch(d, Raw(log, j)))
    ensures First(Raw(log, j)) == First(ParallelBatch(d, Raw(log, j))) == Start(log, j)
  {
    StartStep(log, j);
    StartAtMost(log, j + 1);
    DecodedFirst(d, log, j);
  }

  lemma TravellerIsAccepted<S>(d: Decoding<S>, s: State<S>, b: Batch) returns (j: nat)
    requires Inv(d, s) && Travels(s, b)
    ensures s.emitted <= j < |s.log| && (b == Raw(s.log, j) || b == ParallelBatch(d, Raw(s.log, j)))
  {
    if IsRaw(s.log, s.emitted, b) {
      j :| s.emitted <= j < |s.log| && b == Raw(s.log, j);
    } else {
      assert IsDecoded(d, s.log, s.emitted, b);
      j :| s.emitted <= j < |s.log| && b == ParallelBatch(d, Raw(s.log, j));
    }
  }

  /** Every accepted batch that the serial decoder has not passed on is in flight exactly once, nothing
      else is, and every batch in flight is a contiguous run of indices. */
  lemma Conservation<S>(d: Decoding<S>, workers: nat, schedule: seq<Step>)
    requires |Accepted(Run(d, workers, schedule))| <= TWO_32
    ensures var s := Run(d, workers, schedule);
      && s.emitted <= |s.log| && s.next == Start(s.log, s.emitted)
      && s.cnt == |Accepted(s)| % TWO_32
      && InFlight(s) == multiset(Starts(s.log, s.emitted))
      && (forall b :: Travels(s, b) ==> Contiguous(b))
  {
    var s := Run(d, workers, schedule);
    RunInv(d, workers, schedule);
    forall b | Travels(s, b) ensures Contiguous(b) {
      var j := TravellerIsAccepted(d, s, b);
      RawContiguous(d, s.log, j);
    }
  }

  predicate Holds(b: Batch, i: nat)
  {
    exists k :: 0 <= k < |b| && b[k].index == i
  }

  lemma {:induction false} FindBatch(log: seq<seq<Layer>>, from: nat, i: nat) returns (j: nat)
    requires from <= |log| && Start(log, from) <= i < |Flatten(log)|
    ensures from <= j < |log| && Start(log, j) <= i < Start(log, j) + |log[j]|
    decreases |log| - from
  {
    assert log[..|log|] == log;
    StartStep(log, from);
    if i < Start(log, from + 1) {
      j := from;
    } else {
      j := FindBatch(log, from + 1, i);
    }
  }

  /** Each index that was handed out and has not reached the store is carried by one batch, which
      is in flight exactly once, and by no other. */
  lemma EveryIndexInOneBatch<S>(d: Decoding<S>, workers: nat, schedule: seq<Step>, i: nat)
    returns (start: nat)
    requires |Accepted(Run(d, workers, schedule))| <= TWO_32
    requires Run(d, workers, schedule).next <= i < |Accepted(Run(d, workers, schedule))|
    ensures var s := Run(d, workers, schedule);
      && InFlight(s)[start] == 1
      && (forall b :: Travels(s, b) ==> (Holds(b, i) <==> First(b) == start))
  {
    RunInv(d, workers, schedule);
    start := IndexInOneBatch(d, Run(d, workers, schedule), i);
  }

  lemma IndexInOneBatch<S>(d: Decoding<S>, s: State<S>, i: nat) returns (start: nat)
    requires Inv(d, s) && s.next <= i < |Accepted(s)|
    ensures InFlight(s)[start] == 1
    ensures forall b :: Travels(s, b) ==> (Holds(b, i) <==> First(b) == start)
  {
    var j := FindBatch(s.log, s.emitted, i);
    start := Start(s.log, j);
    OneStart(s.log, s.emitted, j);
    forall b | Travels(s, b) ensures Holds(b, i) <==> First(b) == start {
      var k := TravellerIsAccepted(d, s, b);
      BatchHolds(d, s.log, j, k, i, b);
    }
  }

  lemma OneStart(log: seq<seq<Layer>>, from: nat, j: nat)
    requires from <= j < |log| && forall k :: 0 <= k < |log| ==> log[k] != []
    ensures multiset(Starts(log, from))[Start(log, j)] == 1
  {
    StartsDistinct(log, from, Start(log, j));
    assert Starts(log, from)[j - from] == Start(log, j);
  }

  lemma OtherBatch(log: seq<seq<Layer>>, j: nat, k: nat, i: nat)
    requires forall n :: 0 <= n < |log| ==> log[n] != []
    requires j < |log| && k < |log| && j != k && Start(log, j) <= i < Start(log, j) + |log[j]|
    ensures Start(log, k) != Start(log, j) && !(Start(log, k) <= i < Start(log, k) + |log[k]|)
  {
    StartStep(log, j);
    StartStep(log, k);
    if k < j {
      StartIncreases(log, k, j);
      if k + 1 < j { StartIncreases(log, k + 1, j); }
    } else {
      StartIncreases(log, j, k);
      if j + 1 < k { StartIncreases(log, j + 1, k); }
    }
  }

  lemma ContiguousHolds(b: Batch, start: nat, i: nat)
    requires b != [] && First(b) == start && Contiguous(b)
    ensures Holds(b, i) <==> start <= i < start + |b|
  {
    if start <= i < start + |b| { assert b[i - start].index == i; }
  }

  lemma BatchHolds<S>(d: Decoding<S>, log: seq<seq<Layer>>, j: nat, k: nat, i: nat, b: Batch)
    requires (forall n :: 0 <= n < |log| ==> log[n] != []) && |Flatten(log)| <= TWO_32
    requires j < |log| && k < |log| && Start(log, j) <= i < Start(log, j) + |log[j]|
    requires b == Raw(log, k) || b == ParallelBatch(d, Raw(log, k))
    ensures Holds(b, i) <==> First(b) == Start(log, j)
  {
    RawContiguous(d, log, k);
    ContiguousHolds(b, Start(log, k), i);
    if j != k { OtherBatch(log, j, k, i); }
  }

  // ---- Draining

  function Weight(cmd: Command): nat
  {
    match cmd
    case PushFrames(_) => 8
    case PushSerialFrames(_) => 5
    case _ => 1
  }

  function ChannelWeight(channel: seq<Command>): nat
  {
    if channel == [] then 0 else Weight(channel[0]) + ChannelWeight(channel[1..])
  }

  lemma {:induction false} ChannelWeightPush(channel: seq<Command>, cmd: Command)
    ensures ChannelWeight(channel + [cmd]) == ChannelWeight(channel) + Weight(cmd)
  {
    if channel == [] {
      assert channel + [cmd] == [cmd] && [cmd][1..] == [];
    } else {
      ChannelWeightPush(channel[1..], cmd);
      assert (channel + [cmd])[1..] == channel[1..] + [cmd];
    }
  }

  // The stages that everything in the system still has to pass.
  function Work<S>(s: State<S>): nat
  {
    ChannelWeight(s.channel) + 7 * |s.parallelQueue| + 6 * |s.hands| + 4 * |s.serialQueue| + 2 * |s.pending|
    + if s.draining then 1 else 0
  }

  lemma FileSize(pending: map<nat, Batch>, b: Batch)
    ensures |File(pending, b)| <= |pending| + 1
  {
    if b != [] {
      assert pending[b[0].index := b].Keys == pending.Keys + {b[0].index};
      assert |pending[b[0].index := b].Keys| <= |pending.Keys| + 1;
    }
  }

  lemma RemoveSize(pending: map<nat, Batch>, k: nat)
    requires k in pending
    ensures |pending - {k}| == |pending| - 1
  {
    assert pending.Keys == (pending - {k}).Keys + {k};
    assert |pending.Keys| == |(pending - {k}).Keys| + 1;
  }

  lemma FinishShrinks<S>(d: Decoding<S>, s: State<S>, i: nat)
    requires i < |s.hands|
    ensures Work(DoFinish(d, s, i)) < Work(s)
  {
    ChannelWeightPush(s.channel, PushSerialFrames(ParallelBatch(d, s.hands[i])));
    assert |s.hands[..i] + s.hands[i + 1..]| == |s.hands| - 1;
  }

  lemma CommandShrinks<S>(s: State<S>, cmd: Command)
    ensures Work(RunCommand(s, cmd)) < Work(s) + Weight(cmd)
  {
  }

  lemma LoopShrinks<S>(s: State<S>)
    requires s.channel != []
    ensures Work(DoLoop(s)) < Work(s)
  {
    CommandShrinks(s.(channel := s.channel[1..]), s.channel[0]);
    assert ChannelWeight(s.channel) == Weight(s.channel[0]) + ChannelWeight(s.channel[1..]);
  }

  lemma ReceiveShrinks<S>(s: State<S>)
    requires s.serialQueue != [] && !s.draining
    ensures Work(DoReceive(s)) < Work(s)
  {
    FileSize(s.pending, s.serialQueue[0]);
  }

  lemma EmitShrinks<S>(d: Decoding<S>, s: State<S>)
    requires CanEmit(s)
    ensures Work(DoEmit(d, s)) < Work(s)
  {
    RemoveSize(s.pending, s.next);
    ChannelWeightPush(s.channel, StoreFrames(SerialBatch(d, s.memory, s.pending[s.next]).1));
  }

  /** Every step but an input leaves less work. */
  lemma WorkShrinks<S>(d: Decoding<S>, workers: nat, s: State<S>, step: Step)
    requires Enabled(workers, s, step) && !step.Input?
    ensures Work(Do(d, workers, s, step)) < Work(s)
  {
    match step {
      case Loop => LoopShrinks(s);
      case Take =>
      case Finish(i) => FinishShrinks(d, s, i);
      case Receive => ReceiveShrinks(s);
      case Emit =>
        if CanEmit(s) {
          EmitShrinks(d, s);
        }
    }
  }

  // How many of the further steps are possible when their turn comes.
  function Progress<S>(d: Decoding<S>, workers: nat, schedule: seq<Step>, more: seq<Step>): nat
  {
    if more == [] then 0
    else
      var s := Run(d, workers, schedule + more[..|more| - 1]);
      Progress(d, workers, schedule, more[..|more| - 1])
      + if Enabled(workers, s, more[|more| - 1]) then 1 else 0
  }

  lemma RunStep<S>(d: Decoding<S>, workers: nat, schedule: seq<Step>, step: Step)
    requires !step.Input?
    ensures var s := Run(d, workers, schedule);
      Work(Run(d, workers, schedule + [step])) + (if Enabled(workers, s, step) then 1 else 0) <= Work(s)
  {
    var s := Run(d, workers, schedule);
    assert (schedule + [step])[..|schedule|] == schedule;
    if Enabled(workers, s, step) {
      WorkShrinks(d, workers, s, step);
    }
  }

  /** Once input stops, no schedule makes more steps than there is work left. */
  lemma {:induction false} RunsEnd<S>(d: Decoding<S>, workers: nat, schedule: seq<Step>, more: seq<Step>)
    requires forall i :: 0 <= i < |more| ==> !more[i].Input?
    ensures Progress(d, workers, schedule, more) + Work(Run(d, workers, schedule + more))
      <= Work(Run(d, workers, schedule))
  {
    if more == [] {
      assert schedule + more == schedule;
    } else {
      var init, step := more[..|more| - 1], more[|more| - 1];
      RunsEnd(d, workers, schedule, init);
      assert schedule + more == schedule + init + [step];
      RunStep(d, workers, schedule + init, step);
    }
  }

  // No thread can move without new input.
  ghost predicate Quiescent<S>(workers: nat, s: State<S>)
  {
    forall step :: Enabled(workers, s, step) ==> step.Input?
  }

  // The map is empty and the store holds the sequential decoding of all these layers.
  ghost predicate Complete<S>(d: Decoding<S>, roots: seq<Layer>, s: State<S>)
  {
    s.pending == map[] && s.store == Sequential(d, roots).1 && |s.store| == |roots|
  }

  /** When all threads rest, no batch is stranded: every layer that the schedule pushes is in the store. */
  lemma NothingStranded<S>(d: Decoding<S>, workers: nat, schedule: seq<Step>)
    requires workers > 0 && |Accepted(Run(d, workers, schedule))| <= TWO_32
    requires Quiescent(workers, Run(d, workers, schedule))
    ensures Complete(d, Offered(schedule), Run(d, workers, schedule))
  {
    var s := Run(d, workers, schedule);
    RunInv(d, workers, schedule);
    QuiescentEmpty(workers, s);
    EmptyComplete(d, s);
    OfferedIsAccepted(d, workers, schedule);
    assert Accepted(s) + [] == Accepted(s);
  }

  lemma QuiescentEmpty<S>(workers: nat, s: State<S>)
    requires workers > 0 && Quiescent(workers, s)
    ensures Empty(s)
  {
    assert !Enabled(workers, s, Emit) && !Enabled(workers, s, Loop) && !Enabled(workers, s, Finish(0));
    assert !Enabled(workers, s, Receive) && !Enabled(workers, s, Take);
  }

  // All queues and hands are empty and the serial worker waits for its queue.
  predicate Empty<S>(s: State<S>)
  {
    s.channel == [] && s.parallelQueue == [] && s.hands == [] && s.serialQueue == [] && !s.draining
  }

  lemma EmptyComplete<S>(d: Decoding<S>, s: State<S>)
    requires Inv(d, s) && Empty(s)
    ensures Complete(d, Accepted(s), s)
  {
    InvRefines(d, s);
    AllEmitted(s);
    assert s.log[..|s.log|] == s.log && Storing(s.channel) == [];
    var reference := Sequential(d, Accepted(s)).1;
    assert reference[..|reference|] == reference && s.store + [] == s.store;
  }

  lemma AllEmitted<S>(s: State<S>)
    requires LogOk(s) && Conserved(s) && Empty(s) && s.next !in s.pending
    ensures s.emitted == |s.log| && s.pending == map[]
  {
    OnlyPending(s);
    FirstStart(s.log, s.emitted);
    assert Starts(s.log, s.emitted) == [];
    NoKeys(s.pending);
  }

  lemma FirstStart(log: seq<seq<Layer>>, from: nat)
    requires from <= |log|
    ensures from < |log| ==> Start(log, from) in multiset(Starts(log, from))
  {
    if from < |log| {
      assert Starts(log, from)[0] == Start(log, from);
    }
  }

  lemma OnlyPending<S>(s: State<S>)
    requires Empty(s)
    ensures InFlight(s) == multiset(s.pending.Keys)
  {
    assert Firsts([]) == [];
  }

  lemma NoKeys(pending: map<nat, Batch>)
    requires multiset(pending.Keys) == multiset{}
    ensures pending == map[]
  {
    assert forall k :: k in pending ==> multiset(pending.Keys)[k] == 1;
  }

  // ---- Filter results

  lemma FilterIsComplete(r: Results, store: seq<Frame>, id: nat)
    requires UpToDate(r, store) && id in r.filters
    ensures Listed(r.filtered, id) == Passing(r.filters[id].filter, store)
    ensures id in r.reported && r.reported[id] == |Listed(r.filtered, id)|
  {
    assert FilterUpToDate(r, id, store);
  }

  /** After every turn of the event loop the list of each active filter is the result of filtering the
      whole store, its length is the one last reported, and no other filter has a list. */
  lemma FilteringIsComplete<S>(d: Decoding<S>, workers: nat, schedule: seq<Step>)
    requires |Accepted(Run(d, workers, schedule))| <= TWO_32
    ensures UpToDate(Run(d, workers, schedule).results, Run(d, workers, schedule).store)
  {
    RunInv(d, workers, schedule);
  }

  /** A filtered list can be used as a list of store positions: it is increasing, every entry is the
      position of a stored frame that passes, and no passing frame is missing. */
  lemma FilteredIndicesArePositions<S>(d: Decoding<S>, workers: nat, schedule: seq<Step>, id: nat)
    requires |Accepted(Run(d, workers, schedule))| <= TWO_32
    requires id in Run(d, workers, schedule).results.filters
    ensures var s := Run(d, workers, schedule);
      var list, filter := Listed(s.results.filtered, id), s.results.filters[id].filter;
      && (forall k :: 0 <= k < |list| ==> list[k] < |s.store| && filter.matches(s.store[list[k]].body.layers))
      && (forall j, k :: 0 <= j < k < |list| ==> list[j] < list[k])
      && (forall i :: 0 <= i < |s.store| && filter.matches(s.store[i].body.layers) ==> i in list)
  {
    var s := Run(d, workers, schedule);
    RunInv(d, workers, schedule);
    InvRefines(d, s);
    RefinesPositions(d, Accepted(s), s);
    FilterIsComplete(s.results, s.store, id);
    PassingPositions(s.results.filters[id].filter, s.store);
  }

  /** Once the event loop has taken the commands for an id, its list is that of the filter that the schedule sets
      last: exactly the positions of the frames that pass. Without one there is no list. */
  lemma LastSetIsListed<S>(d: Decoding<S>, workers: nat, schedule: seq<Step>, id: nat)
    requires |Accepted(Run(d, workers, schedule))| <= TWO_32
    requires !Sets(Outside(Run(d, workers, schedule).channel), id)
    ensures var s, filter := Run(d, workers, schedule), LastSet(Commands(schedule), id);
      var list := Listed(s.results.filtered, id);
      && (filter.None? ==> id !in s.results.filtered && id !in s.results.filters)
      && (filter.Some? ==> forall i: nat ::
          i in list <==> i < |s.store| && filter.value.matches(s.store[i].body.layers))
      && (forall j, k :: 0 <= j < k < |list| ==> list[j] < list[k])
  {
    LastSetIsActive(d, workers, schedule, id);
    FilteringIsComplete(d, workers, schedule);
    if id in Run(d, workers, schedule).results.filters { FilteredIndicesArePositions(d, workers, schedule, id); }
  }
}
