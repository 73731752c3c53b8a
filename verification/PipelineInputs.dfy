// What a schedule asks for, read off its inputs alone, and that the event loop does all of it in order.
module PipelineInputs {
  import opened Base
  import opened Frames
  import opened EventLoop
  import opened Pipeline

  // The commands that come in from outside, in order.
  function Commands(schedule: seq<Step>): seq<Command>
  {
    if schedule == [] then []
    else
      var step := schedule[|schedule| - 1];
      Commands(schedule[..|schedule| - 1]) + if step.Input? && FromOutside(step.cmd) then [step.cmd] else []
  }

  // The layers that some commands push, in order; a failed input pushes none.
  function Layers(cmds: seq<Command>): seq<Layer>
  {
    if cmds == [] then []
    else
      var cmd := cmds[|cmds| - 1];
      Layers(cmds[..|cmds| - 1]) + if cmd.PushFrames? && cmd.result.Some? then cmd.result.value else []
  }

  /** Every layer that the inputs of a schedule push, in order. */
  function Offered(schedule: seq<Step>): seq<Layer>
  {
    Layers(Commands(schedule))
  }

  // The last filter that some commands set for an id; None when there is none, or it was removed last.
  function LastSet(cmds: seq<Command>, id: nat): Option<Filter>
  {
    if cmds == [] then None
    else
      var cmd := cmds[|cmds| - 1];
      if cmd.SetFilter? && cmd.id == id then cmd.filter else LastSet(cmds[..|cmds| - 1], id)
  }

  // Some command sets or removes the filter of an id.
  predicate Sets(cmds: seq<Command>, id: nat)
  {
    exists i :: 0 <= i < |cmds| && cmds[i].SetFilter? && cmds[i].id == id
  }

  // The commands from outside that the event loop has not taken yet.
  function Outside(channel: seq<Command>): seq<Command>
  {
    if channel == [] then []
    else IfOutside(channel[0]) + Outside(channel[1..])
  }

  // The command, if it is from outside.
  function IfOutside(cmd: Command): seq<Command>
  {
    if FromOutside(cmd) then [cmd] else []
  }

  lemma Associates(a: seq<Command>, b: seq<Command>, c: seq<Command>)
    ensures a + (b + c) == a + b + c
  {
  }

  lemma PushThenPop(channel: seq<Command>, cmd: Command)
    requires channel != []
    ensures (channel + [cmd])[0] == channel[0] && (channel + [cmd])[1..] == channel[1..] + [cmd]
  {
  }

  lemma {:induction false} OutsidePush(channel: seq<Command>, cmd: Command)
    ensures Outside(channel + [cmd]) == Outside(channel) + IfOutside(cmd)
  {
    if channel == [] {
      assert channel + [cmd] == [cmd] && [cmd][1..] == [];
    } else {
      PushThenPop(channel, cmd);
      OutsidePush(channel[1..], cmd);
      Associates(IfOutside(channel[0]), Outside(channel[1..]), IfOutside(cmd));
    }
  }

  lemma {:induction false} LayersAppend(a: seq<Command>, b: seq<Command>)
    ensures Layers(a + b) == Layers(a) + Layers(b)
  {
    if b == [] {
      assert a + b == a;
    } else {
      LayersAppend(a, b[..|b| - 1]);
      assert (a + b)[..|a + b| - 1] == a + b[..|b| - 1];
    }
  }

  lemma {:induction false} LastSetAppend(a: seq<Command>, b: seq<Command>, id: nat)
    requires !Sets(b, id)
    ensures LastSet(a + b, id) == LastSet(a, id)
  {
    if b == [] {
      assert a + b == a;
    } else {
      var init := b[..|b| - 1];
      assert (a + b)[..|a + b| - 1] == a + init;
      LastSetAppend(a, init, id);
    }
  }

  // ---- Filters

  function Active(r: Results, id: nat): Option<Filter>
  {
    if id in r.filters then Some(r.filters[id].filter) else None
  }

  /** Setting a filter makes it the active one of its id, which has seen nothing yet; removing it leaves none; the
      other ids keep theirs. */
  lemma PushFilterSets(r: Results, id: nat, filter: Option<Filter>)
    ensures var r' := PushFilter(r, id, filter);
      && (id in r'.filters <==> filter.Some?)
      && (filter.Some? ==> r'.filters[id] == FilterContext(filter.value, 0))
      && (forall other :: other != id ==> (other in r'.filters <==> other in r.filters))
      && (forall other :: other != id && other in r.filters ==> r'.filters[other] == r.filters[other])
  {
  }

  lemma CatchUpKeepsActive(r: Results, store: seq<Frame>, id: nat)
    ensures Active(CatchUp(r, store), id) == Active(r, id)
  {
  }

  // ---- Runs

  // The event loop has done what these commands ask for.
  ghost predicate Served<S>(taken: seq<Command>, s: State<S>)
  {
    Accepted(s) == Layers(taken) && forall id :: Active(s.results, id) == LastSet(taken, id)
  }

  lemma TakenOneMore(taken: seq<Command>, cmd: Command)
    ensures Layers(taken + [cmd]) ==
      Layers(taken) + if cmd.PushFrames? && cmd.result.Some? then cmd.result.value else []
    ensures forall id ::
      LastSet(taken + [cmd], id) == (if cmd.SetFilter? && cmd.id == id then cmd.filter else LastSet(taken, id))
  {
    assert (taken + [cmd])[..|taken|] == taken;
  }

  lemma CommandServed<S>(taken: seq<Command>, s: State<S>, cmd: Command)
    requires Served(taken, s)
    ensures Served(taken + [cmd], RunCommand(s, cmd))
  {
    var s' := RunCommand(s, cmd);
    TakenOneMore(taken, cmd);
    if cmd.PushFrames? && cmd.result.Some? { FlattenSnoc(s.log, cmd.result.value); }
    forall id ensures Active(s'.results, id) == LastSet(taken + [cmd], id) {
      assert Active(s.results, id) == LastSet(taken, id);
    }
  }

  lemma CatchUpServed<S>(taken: seq<Command>, s: State<S>, t: State<S>)
    requires Served(taken, s) && t == s.(results := CatchUp(s.results, s.store))
    ensures Served(taken, t)
  {
    forall id ensures Active(t.results, id) == LastSet(taken, id) {
      CatchUpKeepsActive(s.results, s.store, id);
      assert Active(s.results, id) == LastSet(taken, id);
    }
  }

  // A command from inside changes neither what was accepted nor the filters.
  lemma InsideServed<S>(taken: seq<Command>, s: State<S>, cmd: Command)
    requires Served(taken, s) && !FromOutside(cmd)
    ensures Served(taken, RunCommand(s, cmd))
  {
    assert RunCommand(s, cmd).results == s.results && RunCommand(s, cmd).log == s.log;
  }

  lemma LoopServed<S>(taken: seq<Command>, s: State<S>) returns (more: seq<Command>)
    requires s.channel != [] && Served(taken, s)
    ensures Served(more, DoLoop(s)) && more + Outside(DoLoop(s).channel) == taken + Outside(s.channel)
  {
    var cmd, popped := s.channel[0], s.(channel := s.channel[1..]);
    var ran := RunCommand(popped, cmd);
    more := taken + IfOutside(cmd);
    if FromOutside(cmd) {
      CommandServed(taken, popped, cmd);
    } else {
      assert more == taken;
      InsideServed(taken, popped, cmd);
    }
    CatchUpServed(more, ran, DoLoop(s));
    RunKeepsChannel(popped, cmd);
    Associates(taken, IfOutside(cmd), Outside(popped.channel));
  }

  lemma RunKeepsChannel<S>(s: State<S>, cmd: Command)
    ensures RunCommand(s, cmd).channel == s.channel
  {
  }

  lemma StepServed<S>(d: Decoding<S>, workers: nat, taken: seq<Command>, s: State<S>, step: Step)
    returns (more: seq<Command>)
    requires Enabled(workers, s, step) && Served(taken, s)
    ensures var t := Do(d, workers, s, step);
      && Served(more, t)
      && more + Outside(t.channel) == taken + Outside(s.channel) + if step.Input? then [step.cmd] else []
  {
    more := taken;
    match step
    case Input(cmd) => OutsidePush(s.channel, cmd);
    case Loop => more := LoopServed(taken, s);
    case Finish(i) => OutsidePush(s.channel, PushSerialFrames(ParallelBatch(d, s.hands[i])));
    case Emit =>
      if CanEmit(s) { OutsidePush(s.channel, StoreFrames(SerialBatch(d, s.memory, s.pending[s.next]).1)); }
    case _ =>
  }

  /** In every run the event loop has done exactly what the first of the commands ask for: all but those still in
      the channel. */
  lemma {:induction false} RunServes<S>(d: Decoding<S>, workers: nat, schedule: seq<Step>) returns (taken: seq<Command>)
    ensures var s := Run(d, workers, schedule);
      Commands(schedule) == taken + Outside(s.channel) && Served(taken, s)
  {
    taken := [];
    if schedule != [] {
      var init, step := schedule[..|schedule| - 1], schedule[|schedule| - 1];
      taken := RunServes(d, workers, init);
      var s := Run(d, workers, init);
      if Enabled(workers, s, step) {
        taken := StepServed(d, workers, taken, s, step);
      }
    }
  }

  /** Every layer that is pushed is accepted in its turn, or still in the channel. */
  lemma OfferedIsAccepted<S>(d: Decoding<S>, workers: nat, schedule: seq<Step>)
    ensures var s := Run(d, workers, schedule);
      Offered(schedule) == Accepted(s) + Layers(Outside(s.channel))
  {
    var taken := RunServes(d, workers, schedule);
    LayersAppend(taken, Outside(Run(d, workers, schedule).channel));
  }

  /** The active filter of an id is the last that the schedule sets for it, unless such a command is still in the
      channel. */
  lemma LastSetIsActive<S>(d: Decoding<S>, workers: nat, schedule: seq<Step>, id: nat)
    requires !Sets(Outside(Run(d, workers, schedule).channel), id)
    ensures Active(Run(d, workers, schedule).results, id) == LastSet(Commands(schedule), id)
  {
    var taken := RunServes(d, workers, schedule);
    LastSetAppend(taken, Outside(Run(d, workers, schedule).channel), id);
  }
}
