// The parts put together: the pipeline runs the frame dispatcher in its parallel and serial threads, and
// its filters are filter texts.
module System {
  import opened Base
  import opened Frames
  import opened LevelOrder
  import opened EventLoop
  import opened Pipeline
  import opened PipelineInputs
  import opened PipelineTheorems
  import opened FilterAst
  import opened FilterParser
  import D = Dispatcher
  import T = DispatcherTheorems
  import FilterText
  import S = FilterSelfMatch
  import Threads
  import Unparser

  // The decoders of one pass and the workers that a thread makes of them.
  datatype Crew<!W> = Crew(decoders: seq<D.Decoder<W>>, workers: seq<Option<W>>)

  ghost predicate Sound<W(!new)>(c: Crew<W>)
  {
    |c.workers| == |c.decoders| && D.Polite(c.decoders)
  }

  // One frame in a thread whose dispatcher has the workers m now.
  ghost function Decode<W(!new)>(c: Crew<W>, m: seq<Option<W>>, body: Body): (seq<Option<W>>, Body)
    requires Sound(c)
  {
    if |m| == |c.decoders| then
      var q := D.Process(c.decoders, m, body);
      (q.workers, D.Result(q))
    else (m, body)
  }

  // A parallel thread: a dispatcher of its own, whose workers stay from frame to frame.
  ghost function ThreadOf<W(!new)>(first: Crew<W>): Threads.Worker<seq<Option<W>>>
    requires Sound(first)
  {
    Threads.Worker((m, body) => Decode(first, m, body), first.workers)
  }

  // The workers that a thread can come to have.
  ghost function Roles<W(!new)>(first: Crew<W>): seq<Option<W>> -> bool
  {
    m => T.SameRoles(first.workers, m)
  }

  // A pass of the first crew by a new thread, then a pass of the second crew, whose workers stay.
  ghost function DecodingOf<W(!new)>(first: Crew<W>, second: Crew<W>): Decoding<seq<Option<W>>>
    requires Sound(first) && Sound(second)
  {
    Decoding(
      body => Decode(first, first.workers, body).1,
      (m: seq<Option<W>>, body: Body) => Decode(second, m, body),
      second.workers)
  }

  /** Where the first crew's results depend on the frame alone, it does not matter which thread decodes a
      frame, nor what that thread decoded before. */
  lemma CrewForgets<W(!new)>(first: Crew<W>)
    requires Sound(first) && T.Memoryless(first.decoders)
    ensures Threads.Forgetful(ThreadOf(first), Roles(first))
  {
    forall m: seq<Option<W>>, body: Body | Roles(first)(m)
      ensures Threads.Forgets(ThreadOf(first), Roles(first), m, body)
    {
      T.AnyWorkerAlike(first.decoders, first.workers, m, body);
      T.ProcessKeepsRoles(first.decoders, m, body);
    }
  }

  // The system: parallel threads with the first crew each, one serial thread with the second.
  ghost function Reached<W(!new)>(first: Crew<W>, second: Crew<W>, threads: nat, moves: seq<Threads.Move>)
    : State<seq<Option<W>>>
    requires Sound(first) && Sound(second)
  {
    Threads.Play(ThreadOf(first), DecodingOf(first, second), threads, moves).state
  }

  /** Under any interleaving of its threads, the system stores what decoding one frame after the other gives. */
  lemma SystemRefinesSequential<W(!new)>(first: Crew<W>, second: Crew<W>, threads: nat, moves: seq<Threads.Move>)
    requires Sound(first) && Sound(second) && T.Memoryless(first.decoders)
    requires |Accepted(Reached(first, second, threads, moves))| <= TWO_32
    ensures var s := Reached(first, second, threads, moves);
      Refines(DecodingOf(first, second), Threads.OfferedBy(moves), s) && IndexIsPosition(s.store) && UpToDate(s.results, s.store)
  {
    CrewForgets(first);
    Threads.ThreadsRefineSequential(ThreadOf(first), Roles(first), DecodingOf(first, second), threads, moves);
  }

  lemma DecodeKeepsSize<W(!new)>(c: Crew<W>, m: seq<Option<W>>, body: Body)
    requires Sound(c) && |m| == |c.decoders|
    ensures |Decode(c, m, body).0| == |c.decoders|
  {
  }

  // Decoding one frame after the other keeps the number of the second crew's workers.
  lemma {:induction false} MemorySize<W(!new)>(first: Crew<W>, second: Crew<W>, roots: seq<Layer>)
    requires Sound(first) && Sound(second)
    ensures |Sequential(DecodingOf(first, second), roots).0| == |second.decoders|
  {
    var d := DecodingOf(first, second);
    if roots != [] {
      var init, root := roots[..|roots| - 1], roots[|roots| - 1];
      MemorySize(first, second, init);
      DecodeKeepsSize(second, Sequential(d, init).0, d.parallel(Fresh(root)));
    }
  }

  // Frame i comes out of a pass of the second crew with the workers it has by then.
  lemma SequentialFrame<W(!new)>(first: Crew<W>, second: Crew<W>, roots: seq<Layer>, i: nat)
    returns (m: seq<Option<W>>)
    requires Sound(first) && Sound(second) && i < |roots|
    ensures |m| == |second.decoders| && |Sequential(DecodingOf(first, second), roots).1| == |roots|
    ensures Sequential(DecodingOf(first, second), roots).1[i].body
      == Decode(second, m, Decode(first, first.workers, Fresh(roots[i])).1).1
  {
    SequentialAt(DecodingOf(first, second), roots, i);
    MemorySize(first, second, roots[..i]);
    m := Sequential(DecodingOf(first, second), roots[..i]).0;
  }

  // What the user interface can rely on for a stored frame.
  ghost predicate WellStored<W(!new)>(first: Crew<W>, root: Layer, frame: Frame)
    requires Sound(first)
  {
    var q := D.Process(first.decoders, first.workers, Body([root], []));
    && T.SameLayers(q.layers, frame.body.layers)
    && |q.counts| == |q.layers|
    && frame.body.counts == q.counts + D.Repeat(0, T.Leaves(q.counts, 0, |q.counts|))
    && (Narrow(q.kids) ==> ValidCounts(q.counts) && q.counts == q.kids)
  }

  lemma FrameIsWellStored<W(!new)>(first: Crew<W>, second: Crew<W>, root: Layer, m: seq<Option<W>>, frame: Frame)
    requires Sound(first) && Sound(second) && T.NoLayers(second.decoders) && |m| == |second.decoders|
    requires frame.body == Decode(second, m, Decode(first, first.workers, Fresh(root)).1).1
    ensures WellStored(first, root, frame)
  {
    T.FirstPassEncodes(first.decoders, first.workers, root);
    T.CountsAddUpIff(first.decoders, first.workers, root);
    T.SecondPassAppendsZeros(second.decoders, m, D.Result(D.Process(first.decoders, first.workers, Fresh(root))));
  }

  /** In every run of the threads, frame i of the store comes from the i-th layer that was pushed: it has the layers
      of the first pass, and its counts are the level-order list of that pass, then zeros for the leaves.
      With fewer than 256 children below each layer that list is valid, as rebuilding the tree requires. */
  lemma StoredFramesAreTrees<W(!new)>(first: Crew<W>, second: Crew<W>, threads: nat, moves: seq<Threads.Move>, i: nat)
    requires Sound(first) && Sound(second) && T.Memoryless(first.decoders) && T.NoLayers(second.decoders)
    requires |Accepted(Reached(first, second, threads, moves))| <= TWO_32
    requires i < |Reached(first, second, threads, moves).store|
    ensures var s := Reached(first, second, threads, moves);
      var roots := Threads.OfferedBy(moves);
      i < |roots| && s.store[i].index == i && WellStored(first, roots[i], s.store[i])
  {
    var s, roots := Reached(first, second, threads, moves), Threads.OfferedBy(moves);
    SystemRefinesSequential(first, second, threads, moves);
    assert s.store[i] == Sequential(DecodingOf(first, second), roots).1[i];
    var m := SequentialFrame(first, second, roots, i);
    FrameIsWellStored(first, second, roots[i], m, s.store[i]);
  }

  // ---- Filters

  // The filter that a text stands for; a text that does not parse sets no filter.
  function FilterOf(lib: Library, text: string): Option<Filter>
  {
    var o := Parse(lib, text);
    if o.Parsed? then Some(Filter(layers => Test(lib.floats, o.expr, layers))) else None
  }

  // The last filter that a schedule sets is the one written for a value of an id.
  ghost predicate SetsSelfFilter(schedule: seq<Step>, filter: nat, lib: Library, id: string, typ: string, v: Variant)
  {
    LastSet(Commands(schedule), filter) == FilterOf(lib, Unparser.Unparse(lib, S.SelfFilter(lib, id, typ, v)))
  }

  /** In every run that sets it, and has taken the command, the filter written for a value of an id lists exactly the stored frames on which the id
      compares equal to the value as read. */
  lemma SelfFilterListsIff<M>(d: Decoding<M>, threads: nat, schedule: seq<Step>, lib: Library, filter: nat, i: nat,
                              id: string, typ: string, v: Variant)
    requires |Accepted(Run(d, threads, schedule))| <= TWO_32 && i < |Run(d, threads, schedule).store|
    requires FilterText.IsMember(id) && S.AddressLaws(lib) && S.Printed(v)
    requires SetsSelfFilter(schedule, filter, lib, id, typ, v) && !Sets(Outside(Run(d, threads, schedule).channel), filter)
    ensures var s := Run(d, threads, schedule);
      i in Listed(s.results.filtered, filter) <==>
      S.Selects(lib.floats, typ, v, LookUp(id, s.store[i].body.layers))
  {
    var s := Run(d, threads, schedule);
    S.SelfFilterSelects(lib, id, typ, v, s.store[i].body.layers);
    LastSetIsListed(d, threads, schedule, filter);
  }

  /** If an attribute of a stored frame is the first of its id in its layer, and no layer above says anything about
      the id, the filter written for it lists that frame exactly if the value finds itself: it is not a negative
      BigInt, nor a big one with needless bytes. */
  lemma SelfFilterListsItsFrame<M>(d: Decoding<M>, threads: nat, schedule: seq<Step>, lib: Library, filter: nat,
                                   i: nat, k: nat, a: Attr)
    requires |Accepted(Run(d, threads, schedule))| <= TWO_32 && i < |Run(d, threads, schedule).store|
    requires FilterText.IsMember(a.id) && S.AddressLaws(lib) && a.value.Some? && S.Printed(a.value.value)
    requires SetsSelfFilter(schedule, filter, lib, a.id, a.typ, a.value.value)
    requires !Sets(Outside(Run(d, threads, schedule).channel), filter)
    requires S.Foremost(Run(d, threads, schedule).store[i].body.layers, k, a)
    ensures i in Listed(Run(d, threads, schedule).results.filtered, filter) <==>
      S.FindsItself(a.value.value)
  {
    S.ForemostIsLookedUp(Run(d, threads, schedule).store[i].body.layers, k, a);
    SelfFilterListsIff(d, threads, schedule, lib, filter, i, a.id, a.typ, a.value.value);
    S.SelectsItself(lib.floats, a.typ, a.value.value);
  }
}
