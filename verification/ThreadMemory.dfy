// What the store looks like when parallel threads do remember: it depends on who takes which batch.
module ThreadMemory {
  import opened Base
  import opened Frames
  import opened EventLoop
  import opened Pipeline
  import opened Threads

  // A thread that tells its first frame from the others; the serial thread copies.
  function Marking(): Worker<bool>
  {
    Worker((m: bool, body: Body) => (true, Body(body.layers, body.counts + [if m then 1 else 0])), false)
  }

  function Copying(): Decoding<()>
  {
    Decoding(body => body, (m: (), body: Body) => (m, body), ())
  }

  // What two such threads lead the pipeline to.
  ghost function End(moves: seq<Move>): State<()>
  {
    Play(Marking(), Copying(), 2, moves).state
  }

  // Two threads are in the state c after some moves.
  ghost predicate Leads(moves: seq<Move>, c: Crowd<bool, ()>)
  {
    c == Play(Marking(), Copying(), 2, moves)
  }

  // The same threads, with another state of the pipeline.
  function With(c: Crowd<bool, ()>, s: State<()>): Crowd<bool, ()>
  {
    c.(state := s)
  }

  lemma OneMove(moves: seq<Move>, c: Crowd<bool, ()>, m: Move, after: Crowd<bool, ()>)
    requires Leads(moves, c) && WellStaffed(c) && CanMove(c, m) && after == Make(Marking(), Copying(), c, m)
    ensures Leads(moves + [m], after)
  {
    assert (moves + [m])[..|moves|] == moves;
  }

  lemma OneStep(moves: seq<Move>, c: Crowd<bool, ()>, step: Step, s: State<()>)
    requires Leads(moves, c) && WellStaffed(c) && CanMove(c, Other(step))
    requires s == Do(Copying(), |c.memories|, c.state, step)
    ensures Leads(moves + [Other(step)], With(c, s))
  {
    OneMove(moves, c, Other(step), With(c, s));
  }

  // No filters, whose results a turn of the event loop would change.
  lemma NoFilters(store: seq<Frame>)
    ensures CatchUp(NO_RESULTS, store) == NO_RESULTS
  {
    assert Grown(NO_RESULTS, store) == {};
  }

  const ROOT := Layer("", [], [], [], [])
  const ARRIVAL := PushFrames(Some([ROOT]))

  // The batch of frame i as it is accepted, and as a thread leaves it.
  function Raw(i: nat): Batch
  {
    [Frame(i, Body([ROOT], []))]
  }

  function Marked(i: nat, m: bool): Batch
  {
    [Frame(i, Body([ROOT], [if m then 1 else 0]))]
  }

  // ---- Two frames arrive

  // Frame cnt was taken from the channel.
  function Accepting(s: State<()>, cnt: nat): State<()>
  {
    s.(channel := [], cnt := cnt + 1, parallelQueue := s.parallelQueue + [Raw(cnt)], log := s.log + [[ROOT]])
  }

  lemma Arrived(cnt: nat, s: State<()>)
    requires cnt < 2 && s.cnt == cnt && s.channel == [ARRIVAL] && s.results == NO_RESULTS
    ensures DoLoop(s) == Accepting(s, cnt)
  {
    NoFilters(s.store);
    assert Number(cnt, [ROOT]) == Raw(cnt);
  }

  // n frames were accepted, and these wait for a parallel thread.
  function Waiting(n: nat, queue: seq<Batch>, log: seq<seq<Layer>>): State<()>
    requires n <= 2
  {
    State([], n, [], NO_RESULTS, queue, [], [], map[], 0, (), false, log, 0)
  }

  lemma OneArrives(moves: seq<Move>, n: nat, queue: seq<Batch>, log: seq<seq<Layer>>, memories: seq<bool>)
    returns (more: seq<Move>)
    requires n < 2 && Leads(moves, Crowd(Waiting(n, queue, log), [], memories))
    ensures Leads(more, Crowd(Waiting(n + 1, queue + [Raw(n)], log + [[ROOT]]), [], memories))
  {
    var c := Crowd(Waiting(n, queue, log), [], memories);
    var s := c.state.(channel := [ARRIVAL]);
    OneStep(moves, c, Input(ARRIVAL), s);
    Arrived(n, s);
    more := moves + [Other(Input(ARRIVAL))];
    OneStep(more, With(c, s), Loop, Waiting(n + 1, queue + [Raw(n)], log + [[ROOT]]));
    more := more + [Other(Loop)];
  }

  // ---- The threads decode them

  lemma OneIsMarked(i: nat, m: bool)
    ensures Pass(Marking(), m, Raw(i)) == (true, Marked(i, m))
  {
    var b, body := Raw(i), Body([ROOT], [if m then 1 else 0]);
    assert b[..|b| - 1] == [] && Pass(Marking(), m, []) == (m, []);
    assert [] + body.counts == body.counts;
    assert Marking().decode(m, b[0].body) == (true, body);
    assert [] + [b[0].(body := body)] == Marked(i, m);
  }

  // The first batch was taken from the queue and sent on.
  function Decoded(s: State<()>, b: Batch): State<()>
    requires s.parallelQueue != []
  {
    s.(parallelQueue := s.parallelQueue[1..], channel := s.channel + [PushSerialFrames(b)])
  }

  // Thread t takes frame i and finishes it.
  lemma OneIsDecoded(moves: seq<Move>, c: Crowd<bool, ()>, t: nat, i: nat) returns (more: seq<Move>)
    requires Leads(moves, c) && c.owners == [] && c.state.hands == [] && t < |c.memories|
    requires c.state.parallelQueue != [] && c.state.parallelQueue[0] == Raw(i)
    ensures Leads(more, Crowd(Decoded(c.state, Marked(i, c.memories[t])), [], c.memories[t := true]))
  {
    var held := Crowd(DoTake(c.state), [t], c.memories);
    OneMove(moves, c, TakeBy(t), held);
    OneIsMarked(i, c.memories[t]);
    more := moves + [TakeBy(t)];
    assert Position([t], t) == 0;
    assert Without([t], 0) == [] && Without([Raw(i)], 0) == [];
    OneMove(more, held, FinishBy(t), FinishOf(Marking(), held, t));
    more := more + [FinishBy(t)];
  }

  // ---- They are put in order and stored

  lemma Copied(b: Batch)
    requires |b| == 1
    ensures SerialBatch(Copying(), (), b) == ((), b)
  {
    var f := b[0];
    assert b[..|b| - 1] == [] && SerialBatch(Copying(), (), []) == ((), []);
    assert Copying().serial((), f.body) == ((), f.body);
    assert [] + [f.(body := f.body)] == b;
  }

  // The serial thread has nothing to do and expects the batch at the front of the channel.
  ghost predicate Expects(s: State<()>, b: Batch)
  {
    && |b| == 1 && b[0].index == s.next && s.results == NO_RESULTS
    && s.channel != [] && s.channel[0] == PushSerialFrames(b)
    && s.serialQueue == [] && s.pending == map[] && !s.draining
  }

  // The batch was taken from the channel, then filed, then passed on as the next one; at last it was stored.
  function Queueing(s: State<()>, b: Batch): State<()>
    requires s.channel != []
  {
    s.(channel := s.channel[1..], serialQueue := [b])
  }

  function Filing(s: State<()>, b: Batch): State<()>
  {
    s.(serialQueue := [], pending := map[s.next := b], draining := true)
  }

  function Sending(s: State<()>, b: Batch): State<()>
  {
    s.(pending := map[], next := s.next + 1, channel := s.channel + [StoreFrames(b)], emitted := s.emitted + 1)
  }

  function Idling(s: State<()>): State<()>
  {
    s.(draining := false)
  }

  function Storing(s: State<()>, b: Batch): State<()>
    requires s.channel != []
  {
    s.(channel := s.channel[1..], store := s.store + b)
  }

  lemma Queued(s: State<()>, b: Batch)
    requires Expects(s, b)
    ensures DoLoop(s) == Queueing(s, b)
  {
    NoFilters(s.store);
  }

  lemma Filed(s: State<()>, b: Batch)
    requires s.serialQueue == [b] && s.pending == map[] && |b| == 1 && b[0].index == s.next
    ensures DoReceive(s) == Filing(s, b)
  {
  }

  lemma Sent(s: State<()>, b: Batch)
    requires s.pending == map[s.next := b] && |b| == 1 && b[0].index == s.next
    ensures CanEmit(s) && DoEmit(Copying(), s) == Sending(s, b)
  {
    Copied(b);
    assert s.pending - {s.next} == map[] && s.memory == ();
  }

  // The batch was filed and is the next.
  lemma OneIsEmitted(moves: seq<Move>, c: Crowd<bool, ()>, b: Batch) returns (more: seq<Move>)
    requires Leads(moves, c) && WellStaffed(c) && c.state.draining
    requires c.state.pending == map[c.state.next := b] && |b| == 1 && b[0].index == c.state.next
    ensures Leads(more, With(c, Idling(Sending(c.state, b))))
  {
    var sent := Sending(c.state, b);
    Sent(c.state, b);
    OneStep(moves, c, Emit, sent);
    more := moves + [Other(Emit)];
    OneStep(more, With(c, sent), Emit, Idling(sent));
    more := more + [Other(Emit)];
  }

  lemma OneIsPassedOn(moves: seq<Move>, c: Crowd<bool, ()>, b: Batch) returns (more: seq<Move>)
    requires Leads(moves, c) && WellStaffed(c) && Expects(c.state, b)
    ensures Leads(more, With(c, Idling(Sending(Filing(Queueing(c.state, b), b), b))))
  {
    var queued := Queueing(c.state, b);
    Queued(c.state, b);
    OneStep(moves, c, Loop, queued);
    more := moves + [Other(Loop)];
    var filed := Filing(queued, b);
    Filed(queued, b);
    OneStep(more, With(c, queued), Receive, filed);
    more := OneIsEmitted(more + [Other(Receive)], With(c, filed), b);
  }

  lemma OneIsStored(moves: seq<Move>, c: Crowd<bool, ()>, b: Batch) returns (more: seq<Move>)
    requires Leads(moves, c) && WellStaffed(c) && c.state.results == NO_RESULTS
    requires c.state.channel != [] && c.state.channel[0] == StoreFrames(b)
    ensures Leads(more, With(c, Storing(c.state, b)))
  {
    NoFilters(c.state.store + b);
    OneStep(moves, c, Loop, Storing(c.state, b));
    more := moves + [Other(Loop)];
  }

  // Both frames are marked and on their way to the serial thread.
  function OnTheWay(first: Batch, second: Batch): State<()>
  {
    Waiting(2, [], [[ROOT], [ROOT]]).(channel := [PushSerialFrames(first), PushSerialFrames(second)])
  }

  // Both frames wait for a parallel thread.
  function BothWait(): State<()>
  {
    Waiting(2, [Raw(0), Raw(1)], [[ROOT], [ROOT]])
  }

  lemma StartOfAll(memories: seq<bool>)
    requires memories == [false, false]
    ensures Leads([], Crowd(Waiting(0, [], []), [], memories))
  {
    assert seq(2, _ => false) == memories;
  }

  lemma FirstArrives(memories: seq<bool>) returns (moves: seq<Move>)
    requires memories == [false, false]
    ensures Leads(moves, Crowd(Waiting(1, [Raw(0)], [[ROOT]]), [], memories))
  {
    StartOfAll(memories);
    moves := OneArrives([], 0, [], [], memories);
    assert [] + [Raw(0)] == [Raw(0)] && [] + [[ROOT]] == [[ROOT]];
  }

  lemma BothArrive(memories: seq<bool>) returns (moves: seq<Move>)
    requires memories == [false, false]
    ensures Leads(moves, Crowd(BothWait(), [], memories))
  {
    moves := FirstArrives(memories);
    moves := OneArrives(moves, 1, [Raw(0)], [[ROOT]], memories);
    assert [Raw(0)] + [Raw(1)] == [Raw(0), Raw(1)] && [[ROOT]] + [[ROOT]] == [[ROOT], [ROOT]];
  }

  // The first frame is marked, the second still waits.
  function FirstIsMarked(first: Batch): State<()>
  {
    Waiting(2, [Raw(1)], [[ROOT], [ROOT]]).(channel := [PushSerialFrames(first)])
  }

  lemma FirstIsDecoded(moves: seq<Move>, memories: seq<bool>) returns (more: seq<Move>)
    requires memories == [false, false] && Leads(moves, Crowd(BothWait(), [], memories))
    ensures Leads(more, Crowd(FirstIsMarked(Marked(0, false)), [], memories[0 := true]))
  {
    more := OneIsDecoded(moves, Crowd(BothWait(), [], memories), 0, 0);
    var s := FirstIsMarked(Marked(0, false));
    assert BothWait().parallelQueue[1..] == s.parallelQueue && [] + s.channel == s.channel;
  }

  lemma SecondIsDecoded(moves: seq<Move>, memories: seq<bool>, t: nat, first: Batch) returns (more: seq<Move>)
    requires t < |memories| && Leads(moves, Crowd(FirstIsMarked(first), [], memories))
    ensures Leads(more, Crowd(OnTheWay(first, Marked(1, memories[t])), [], memories[t := true]))
  {
    more := OneIsDecoded(moves, Crowd(FirstIsMarked(first), [], memories), t, 1);
    assert [Raw(1)][1..] == [];
  }

  // Two frames arrive; thread 0 decodes the first and thread t the second.
  lemma BothAreDecoded(t: nat) returns (moves: seq<Move>, memories: seq<bool>)
    requires t < 2
    ensures Leads(moves, Crowd(OnTheWay(Marked(0, false), Marked(1, t == 0)), [], memories))
  {
    memories := [false, false];
    moves := BothArrive(memories);
    moves := FirstIsDecoded(moves, memories);
    memories := memories[0 := true];
    moves := SecondIsDecoded(moves, memories, t, Marked(0, false));
    assert memories[t] == (t == 0);
    memories := memories[t := true];
  }

  lemma BothAreStored(moves: seq<Move>, first: Batch, second: Batch, memories: seq<bool>) returns (more: seq<Move>)
    requires |first| == |second| == 1 && first[0].index == 0 && second[0].index == 1
    requires Leads(moves, Crowd(OnTheWay(first, second), [], memories))
    ensures End(more).store == first + second && End(more).log == [[ROOT], [ROOT]]
  {
    var c := Crowd(OnTheWay(first, second), [], memories);
    more := OneIsPassedOn(moves, c, first);
    var s := c.state.(channel := [PushSerialFrames(second), StoreFrames(first)], next := 1, emitted := 1);
    assert c.state.channel[1..] + [StoreFrames(first)] == s.channel;
    more := OneIsPassedOn(more, With(c, s), second);
    var s' := s.(channel := [StoreFrames(first), StoreFrames(second)], next := 2, emitted := 2);
    assert s.channel[1..] + [StoreFrames(second)] == s'.channel;
    more := OneIsStored(more, With(c, s'), first);
    var s'' := s'.(channel := [StoreFrames(second)], store := first);
    assert s'.channel[1..] == s''.channel && [] + first == first;
    more := OneIsStored(more, With(c, s''), second);
  }

  /** Two runs that accept the same two frames but store different ones: in one of them both are decoded by the same
      thread, in the other not. */
  lemma StoreDependsOnThreads() returns (same: seq<Move>, other: seq<Move>)
    ensures Accepted(End(same)) == Accepted(End(other))
    ensures End(same).store == Marked(0, false) + Marked(1, true)
    ensures End(other).store == Marked(0, false) + Marked(1, false)
  {
    var memories;
    same, memories := BothAreDecoded(0);
    same := BothAreStored(same, Marked(0, false), Marked(1, true), memories);
    other, memories := BothAreDecoded(1);
    other := BothAreStored(other, Marked(0, false), Marked(1, false), memories);
  }
}
