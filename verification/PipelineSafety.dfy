// What every interleaving of the pipeline keeps.
module PipelineSafety {
  import opened Base
  import opened Frames
  import opened EventLoop
  import opened Pipeline

  // ---- Where batches are

  function First(b: Batch): int
  {
    if b == [] then -1 else b[0].index
  }

  function Firsts(bs: seq<Batch>): seq<int>
  {
    seq(|bs|, k requires 0 <= k < |bs| => First(bs[k]))
  }

  // The decoded batches on their way back through the command channel.
  function Returning(channel: seq<Command>): seq<Batch>
  {
    if channel == [] then []
    else (if channel[0].PushSerialFrames? then [channel[0].batch] else []) + Returning(channel[1..])
  }

  // The frames on their way to the store.
  function Storing(channel: seq<Command>): seq<Frame>
  {
    if channel == [] then []
    else (if channel[0].StoreFrames? then channel[0].batch else []) + Storing(channel[1..])
  }

  lemma {:induction false} ReturningPush(channel: seq<Command>, cmd: Command)
    ensures Returning(channel + [cmd]) ==
      if cmd.PushSerialFrames? then Returning(channel) + [cmd.batch] else Returning(channel)
  {
    if channel == [] {
      assert [cmd][1..] == [] && channel + [cmd] == [cmd];
    } else {
      ReturningPush(channel[1..], cmd);
      assert (channel + [cmd])[1..] == channel[1..] + [cmd];
    }
  }

  lemma {:induction false} StoringPush(channel: seq<Command>, cmd: Command)
    ensures Storing(channel + [cmd]) ==
      if cmd.StoreFrames? then Storing(channel) + cmd.batch else Storing(channel)
  {
    if channel == [] {
      assert [cmd][1..] == [] && channel + [cmd] == [cmd];
    } else {
      StoringPush(channel[1..], cmd);
      assert (channel + [cmd])[1..] == channel[1..] + [cmd];
    }
  }

  lemma ChannelPush(channel: seq<Command>, cmd: Command)
    ensures Returning(channel + [cmd]) ==
      if cmd.PushSerialFrames? then Returning(channel) + [cmd.batch] else Returning(channel)
    ensures Storing(channel + [cmd]) ==
      if cmd.StoreFrames? then Storing(channel) + cmd.batch else Storing(channel)
  {
    ReturningPush(channel, cmd);
    StoringPush(channel, cmd);
  }

  lemma ChannelPop(channel: seq<Command>)
    requires channel != []
    ensures Returning(channel[1..]) ==
      if channel[0].PushSerialFrames? then Returning(channel)[1..] else Returning(channel)
    ensures channel[0].PushSerialFrames? ==> Returning(channel) != [] && Returning(channel)[0] == channel[0].batch
    ensures Storing(channel) ==
      if channel[0].StoreFrames? then channel[0].batch + Storing(channel[1..]) else Storing(channel[1..])
  {
  }

  // First indices of all batches between acceptance and the serial decoder.
  function InFlight<S>(s: State<S>): multiset<int>
  {
    multiset(Firsts(s.parallelQueue)) + multiset(Firsts(s.hands)) + multiset(Firsts(Returning(s.channel)))
    + multiset(Firsts(s.serialQueue)) + multiset(s.pending.Keys)
  }

  // ---- What the accepted batches are

  // The index of the first frame of the j-th accepted batch.
  function Start(log: seq<seq<Layer>>, j: nat): nat
    requires j <= |log|
  {
    |Flatten(log[..j])|
  }

  function Starts(log: seq<seq<Layer>>, from: nat): seq<int>
    requires from <= |log|
  {
    seq(|log| - from, k requires 0 <= k < |log| - from => Start(log, from + k))
  }

  lemma StartStep(log: seq<seq<Layer>>, j: nat)
    requires j < |log|
    ensures Start(log, j + 1) == Start(log, j) + |log[j]|
  {
    assert log[..j + 1] == log[..j] + [log[j]];
    FlattenSnoc(log[..j], log[j]);
  }

  lemma {:induction false} StartIncreases(log: seq<seq<Layer>>, i: nat, j: nat)
    requires i < j <= |log| && forall k :: 0 <= k < |log| ==> log[k] != []
    ensures Start(log, i) < Start(log, j)
    decreases j
  {
    StartStep(log, j - 1);
    if i < j - 1 {
      StartIncreases(log, i, j - 1);
    }
  }

  function Raw(log: seq<seq<Layer>>, j: nat): Batch
    requires j < |log|
  {
    Number(Start(log, j), log[j])
  }

  ghost predicate IsRaw(log: seq<seq<Layer>>, from: nat, b: Batch)
  {
    exists j :: from <= j < |log| && b == Raw(log, j)
  }

  ghost predicate IsDecoded<S>(d: Decoding<S>, log: seq<seq<Layer>>, from: nat, b: Batch)
  {
    exists j :: from <= j < |log| && b == ParallelBatch(d, Raw(log, j))
  }

  // ---- The invariant

  ghost predicate LogOk<S>(s: State<S>)
  {
    && s.emitted <= |s.log|
    && (forall j :: 0 <= j < |s.log| ==> s.log[j] != [])
    && |Accepted(s)| <= TWO_32
    && s.cnt == |Accepted(s)| % TWO_32
    && s.next == Start(s.log, s.emitted)
  }

  ghost predicate BatchesOk<S>(d: Decoding<S>, s: State<S>)
  {
    && (forall b :: b in s.parallelQueue || b in s.hands ==> IsRaw(s.log, s.emitted, b))
    && (forall b :: b in Returning(s.channel) || b in s.serialQueue ==> IsDecoded(d, s.log, s.emitted, b))
    && (forall k :: k in s.pending ==> IsDecoded(d, s.log, s.emitted, s.pending[k]) && First(s.pending[k]) == k)
    && (!s.draining ==> s.next !in s.pending)
  }

  // The batches in flight are exactly the accepted ones the serial decoder has not passed on, each once.
  ghost predicate Conserved<S>(s: State<S>)
    requires s.emitted <= |s.log|
  {
    InFlight(s) == multiset(Starts(s.log, s.emitted))
  }

  // The serial decoder and the store are where the sequential reference is after `next` frames.
  ghost predicate InStep<S>(d: Decoding<S>, s: State<S>)
    requires s.emitted <= |s.log|
  {
    var (m, frames) := Sequential(d, Flatten(s.log[..s.emitted]));
    s.memory == m && s.store + Storing(s.channel) == frames
  }

  ghost predicate Inv<S>(d: Decoding<S>, s: State<S>)
  {
    LogOk(s) && BatchesOk(d, s) && Conserved(s) && InStep(d, s) && UpToDate(s.results, s.store)
  }

  // ---- Moving batches

  lemma FirstsAppend(a: seq<Batch>, b: seq<Batch>)
    ensures multiset(Firsts(a + b)) == multiset(Firsts(a)) + multiset(Firsts(b))
  {
    assert Firsts(a + b) == Firsts(a) + Firsts(b);
  }

  lemma FirstsOne(b: Batch)
    ensures multiset(Firsts([b])) == multiset{First(b)}
  {
    assert Firsts([b]) == [First(b)];
  }

  lemma FirstsPush(bs: seq<Batch>, b: Batch)
    ensures multiset(Firsts(bs + [b])) == multiset(Firsts(bs)) + multiset{First(b)}
  {
    FirstsAppend(bs, [b]);
    FirstsOne(b);
  }

  lemma FirstsRemove(bs: seq<Batch>, i: nat)
    requires i < |bs|
    ensures multiset(Firsts(bs)) == multiset(Firsts(bs[..i] + bs[i + 1..])) + multiset{First(bs[i])}
  {
    assert bs == bs[..i] + [bs[i]] + bs[i + 1..];
    FirstsAppend(bs[..i] + [bs[i]], bs[i + 1..]);
    FirstsPush(bs[..i], bs[i]);
    FirstsAppend(bs[..i], bs[i + 1..]);
  }

  lemma FirstsPop(bs: seq<Batch>)
    requires bs != []
    ensures multiset(Firsts(bs)) == multiset(Firsts(bs[1..])) + multiset{First(bs[0])}
  {
    FirstsRemove(bs, 0);
    assert bs[..0] + bs[0 + 1..] == bs[1..];
  }

  lemma KeysInsert(m: map<nat, Batch>, k: nat, b: Batch)
    requires k !in m
    ensures multiset(m[k := b].Keys) == multiset(m.Keys) + multiset{k}
  {
    assert m[k := b].Keys == m.Keys + {k};
  }

  lemma KeysRemove(m: map<nat, Batch>, k: nat)
    requires k in m
    ensures multiset(m.Keys) == multiset((m - {k}).Keys) + multiset{k}
  {
    assert m.Keys == (m - {k}).Keys + {k};
  }

  // ---- Moving steps

  lemma InputKeeps<S>(d: Decoding<S>, s: State<S>, cmd: Command)
    requires Inv(d, s) && FromOutside(cmd)
    ensures Inv(d, s.(channel := s.channel + [cmd]))
  {
    ChannelPush(s.channel, cmd);
    var t := s.(channel := s.channel + [cmd]);
  }

  lemma TakeKeeps<S>(d: Decoding<S>, s: State<S>)
    requires Inv(d, s) && s.parallelQueue != []
    ensures Inv(d, s.(parallelQueue := s.parallelQueue[1..], hands := s.hands + [s.parallelQueue[0]]))
  {
    var t := s.(parallelQueue := s.parallelQueue[1..], hands := s.hands + [s.parallelQueue[0]]);
    FirstsPop(s.parallelQueue);
    FirstsPush(s.hands, s.parallelQueue[0]);
  }

  lemma FinishMoves<S>(d: Decoding<S>, s: State<S>, i: nat)
    requires i < |s.hands| && s.hands[i] != []
    ensures InFlight(DoFinish(d, s, i)) == InFlight(s)
  {
    var b := s.hands[i];
    ChannelPush(s.channel, PushSerialFrames(ParallelBatch(d, b)));
    FirstsRemove(s.hands, i);
    FirstsPush(Returning(s.channel), ParallelBatch(d, b));
    assert First(ParallelBatch(d, b)) == First(b);
  }

  lemma FinishBatchesOk<S>(d: Decoding<S>, s: State<S>, i: nat)
    requires i < |s.hands| && BatchesOk(d, s)
    ensures BatchesOk(d, DoFinish(d, s, i))
  {
    var b, t := s.hands[i], DoFinish(d, s, i);
    ReturningPush(s.channel, PushSerialFrames(ParallelBatch(d, b)));
    assert IsRaw(s.log, s.emitted, b);
    assert IsDecoded(d, s.log, s.emitted, ParallelBatch(d, b));
    assert forall c :: c in t.hands ==> c in s.hands;
  }

  lemma FinishInStep<S>(d: Decoding<S>, s: State<S>, i: nat)
    requires LogOk(s) && InStep(d, s) && i < |s.hands|
    ensures LogOk(DoFinish(d, s, i)) && InStep(d, DoFinish(d, s, i))
  {
    StoringPush(s.channel, PushSerialFrames(ParallelBatch(d, s.hands[i])));
  }

  lemma FinishKeeps<S>(d: Decoding<S>, s: State<S>, i: nat)
    requires Inv(d, s) && i < |s.hands|
    ensures Inv(d, DoFinish(d, s, i))
  {
    assert IsRaw(s.log, s.emitted, s.hands[i]);
    FinishMoves(d, s, i);
    FinishBatchesOk(d, s, i);
    FinishInStep(d, s, i);
  }

  // ---- Batches in flight are told apart by their first index

  lemma RawFirst(log: seq<seq<Layer>>, j: nat)
    requires j < |log| && log[j] != [] && Start(log, j) < TWO_32
    ensures First(Raw(log, j)) == Start(log, j)
  {
  }

  lemma StartBounded(log: seq<seq<Layer>>, j: nat)
    requires j < |log| && forall k :: 0 <= k < |log| ==> log[k] != []
    ensures Start(log, j) < |Flatten(log)|
  {
    StartIncreases(log, j, |log|);
    assert log[..|log|] == log;
  }

  lemma StartsDistinct(log: seq<seq<Layer>>, from: nat, x: int)
    requires from <= |log| && forall k :: 0 <= k < |log| ==> log[k] != []
    ensures multiset(Starts(log, from))[x] <= 1
    decreases |log| - from
  {
    var all := Starts(log, from);
    if from < |log| {
      var rest := Starts(log, from + 1);
      assert all == [Start(log, from)] + rest;
      StartsDistinct(log, from + 1, x);
      forall k | 0 <= k < |rest| ensures rest[k] > Start(log, from) {
        StartIncreases(log, from, from + 1 + k);
      }
      if x in rest {
        assert x != Start(log, from);
      } else {
        assert multiset(rest)[x] == 0;
      }
    }
  }

  // A pending key belongs to no other batch in flight.
  lemma PendingAlone<S>(s: State<S>, k: nat)
    requires LogOk(s) && Conserved(s) && k in s.pending
    ensures k !in Firsts(s.parallelQueue) && k !in Firsts(s.hands)
    ensures k !in Firsts(Returning(s.channel)) && k !in Firsts(s.serialQueue)
  {
    StartsDistinct(s.log, s.emitted, k);
    assert InFlight(s)[k] <= 1 && multiset(s.pending.Keys)[k] == 1;
    assert multiset(Firsts(s.parallelQueue))[k] == 0;
  }

  lemma ReceiveMoves<S>(d: Decoding<S>, s: State<S>)
    requires s.serialQueue != [] && s.serialQueue[0] != [] && First(s.serialQueue[0]) !in s.pending
    ensures InFlight(DoReceive(s)) == InFlight(s)
  {
    var b := s.serialQueue[0];
    FirstsPop(s.serialQueue);
    KeysInsert(s.pending, First(b), b);
  }

  lemma ReceiveBatchesOk<S>(d: Decoding<S>, s: State<S>)
    requires BatchesOk(d, s) && s.serialQueue != []
    ensures BatchesOk(d, DoReceive(s))
  {
    assert IsDecoded(d, s.log, s.emitted, s.serialQueue[0]);
  }

  lemma ReceivedIsNew<S>(d: Decoding<S>, s: State<S>)
    requires Inv(d, s) && s.serialQueue != []
    ensures First(s.serialQueue[0]) !in s.pending
  {
    assert Firsts(s.serialQueue)[0] == First(s.serialQueue[0]);
    if First(s.serialQueue[0]) in s.pending {
      PendingAlone(s, First(s.serialQueue[0]));
    }
  }

  lemma ReceiveKeeps<S>(d: Decoding<S>, s: State<S>)
    requires Inv(d, s) && s.serialQueue != []
    ensures Inv(d, DoReceive(s))
  {
    assert IsDecoded(d, s.log, s.emitted, s.serialQueue[0]);
    ReceivedIsNew(d, s);
    ReceiveMoves(d, s);
    ReceiveBatchesOk(d, s);
  }

  // ---- The serial decoder

  // One more frame, in the sequential decoding and at the end of a decoded batch.
  lemma SequentialOneMore<S>(d: Decoding<S>, roots: seq<Layer>, root: Layer)
    ensures var (m, frames) := Sequential(d, roots);
      var (m', body) := d.serial(m, d.parallel(Fresh(root)));
      Sequential(d, roots + [root]) == (m', frames + [Frame(|roots|, body)])
  {
    assert (roots + [root])[..|roots|] == roots;
  }

  lemma SerialOneMore<S>(d: Decoding<S>, m: S, b: Batch, f: Frame)
    ensures var (m1, done) := SerialBatch(d, m, b);
      var (m2, body) := d.serial(m1, f.body);
      SerialBatch(d, m, b + [f]) == (m2, done + [f.(body := body)])
  {
    assert (b + [f])[..|b|] == b;
  }

  lemma NumberOneMore<S>(d: Decoding<S>, cnt: nat, roots: seq<Layer>, root: Layer)
    requires cnt + |roots| < TWO_32
    ensures ParallelBatch(d, Number(cnt, roots + [root]))
      == ParallelBatch(d, Number(cnt, roots)) + [Frame(cnt + |roots|, d.parallel(Fresh(root)))]
  {
  }

  lemma {:induction false} SequentialBatch<S>(d: Decoding<S>, before: seq<Layer>, roots: seq<Layer>)
    requires |before| + |roots| <= TWO_32
    ensures var (m, frames) := Sequential(d, before);
      var (m', done) := SerialBatch(d, m, ParallelBatch(d, Number(|before|, roots)));
      Sequential(d, before + roots) == (m', frames + done)
  {
    if roots == [] {
      assert before + roots == before && ParallelBatch(d, Number(|before|, roots)) == [];
      assert Sequential(d, before).1 + [] == Sequential(d, before).1;
    } else {
      var init, root := roots[..|roots| - 1], roots[|roots| - 1];
      assert roots == init + [root] && before + roots == before + init + [root];
      SequentialBatch(d, before, init);
      SequentialOneMore(d, before + init, root);
      NumberOneMore(d, |before|, init, root);
      var m, b, f := Sequential(d, before).0, ParallelBatch(d, Number(|before|, init)), Frame(|before| + |init|, d.parallel(Fresh(root)));
      SerialOneMore(d, m, b, f);
      var last := Frame(f.index, d.serial(SerialBatch(d, m, b).0, f.body).1);
      assert Sequential(d, before).1 + SerialBatch(d, m, b).1 + [last]
        == Sequential(d, before).1 + (SerialBatch(d, m, b).1 + [last]);
    }
  }

  // The batch filed under `next` is the next accepted one.
  // Of the accepted batches only one starts at a given index.
  lemma StartIsUnique(log: seq<seq<Layer>>, i: nat, j: nat)
    requires i <= j < |log| && (forall k :: 0 <= k < |log| ==> log[k] != []) && Start(log, i) == Start(log, j)
    ensures i == j
  {
    if i < j { StartIncreases(log, i, j); }
  }

  lemma StartAtMost(log: seq<seq<Layer>>, j: nat)
    requires j <= |log| && forall k :: 0 <= k < |log| ==> log[k] != []
    ensures Start(log, j) <= |Flatten(log)|
  {
    if j < |log| { StartBounded(log, j); } else { assert log[..j] == log; }
  }

  lemma DecodedFirst<S>(d: Decoding<S>, log: seq<seq<Layer>>, j: nat)
    requires j < |log| && (forall k :: 0 <= k < |log| ==> log[k] != []) && |Flatten(log)| <= TWO_32
    ensures First(ParallelBatch(d, Raw(log, j))) == First(Raw(log, j)) == Start(log, j)
  {
    StartBounded(log, j);
    RawFirst(log, j);
  }

  lemma DecodedAtStart<S>(d: Decoding<S>, log: seq<seq<Layer>>, from: nat, b: Batch)
    requires from <= |log| && IsDecoded(d, log, from, b) && First(b) == Start(log, from)
    requires (forall k :: 0 <= k < |log| ==> log[k] != []) && |Flatten(log)| <= TWO_32
    ensures from < |log| && b == ParallelBatch(d, Raw(log, from))
  {
    var j :| from <= j < |log| && b == ParallelBatch(d, Raw(log, j));
    DecodedFirst(d, log, j);
    StartIsUnique(log, from, j);
  }

  lemma NextBatch<S>(d: Decoding<S>, s: State<S>)
    requires Inv(d, s) && s.next in s.pending
    ensures s.emitted < |s.log| && s.pending[s.next] == ParallelBatch(d, Raw(s.log, s.emitted))
    ensures First(s.pending[s.next]) == s.next
    ensures s.next + |s.log[s.emitted]| == Start(s.log, s.emitted + 1) <= TWO_32
  {
    DecodedAtStart(d, s.log, s.emitted, s.pending[s.next]);
    StartStep(s.log, s.emitted);
    StartAtMost(s.log, s.emitted + 1);
  }

  // No batch but the one filed under `next` is the next accepted one.
  lemma RawLater(log: seq<seq<Layer>>, from: nat, b: Batch)
    requires from < |log| && IsRaw(log, from, b) && b != Raw(log, from)
    ensures IsRaw(log, from + 1, b)
  {
    var j :| from <= j < |log| && b == Raw(log, j);
    assert from + 1 <= j;
  }

  lemma DecodedLater<S>(d: Decoding<S>, log: seq<seq<Layer>>, from: nat, b: Batch)
    requires from < |log| && IsDecoded(d, log, from, b) && b != ParallelBatch(d, Raw(log, from))
    ensures IsDecoded(d, log, from + 1, b)
  {
    var j :| from <= j < |log| && b == ParallelBatch(d, Raw(log, j));
    assert from + 1 <= j;
  }

  lemma OthersLater<S>(d: Decoding<S>, s: State<S>, b: Batch)
    requires Inv(d, s) && s.next in s.pending && First(b) != s.next
    ensures IsRaw(s.log, s.emitted, b) ==> IsRaw(s.log, s.emitted + 1, b)
    ensures IsDecoded(d, s.log, s.emitted, b) ==> IsDecoded(d, s.log, s.emitted + 1, b)
  {
    NextBatch(d, s);
    DecodedFirst(d, s.log, s.emitted);
    if IsRaw(s.log, s.emitted, b) { RawLater(s.log, s.emitted, b); }
    if IsDecoded(d, s.log, s.emitted, b) { DecodedLater(d, s.log, s.emitted, b); }
  }

  lemma EmitKeepsBatches<S>(d: Decoding<S>, s: State<S>)
    requires Inv(d, s) && s.next in s.pending
    ensures var log, from := s.log, s.emitted + 1;
      && (forall b :: b in s.parallelQueue || b in s.hands ==> IsRaw(log, from, b))
      && (forall b :: b in Returning(s.channel) || b in s.serialQueue ==> IsDecoded(d, log, from, b))
      && (forall k :: k in s.pending && k != s.next ==> IsDecoded(d, log, from, s.pending[k]))
  {
    PendingAlone(s, s.next);
    forall bs: seq<Batch>, b | b in bs && s.next !in Firsts(bs) ensures First(b) != s.next {
      var i :| 0 <= i < |bs| && bs[i] == b;
      assert Firsts(bs)[i] == First(b);
    }
    forall b: Batch | First(b) != s.next
      ensures IsRaw(s.log, s.emitted, b) ==> IsRaw(s.log, s.emitted + 1, b)
      ensures IsDecoded(d, s.log, s.emitted, b) ==> IsDecoded(d, s.log, s.emitted + 1, b)
    {
      OthersLater(d, s, b);
    }
  }

  lemma EmitMoves<S>(d: Decoding<S>, s: State<S>)
    requires CanEmit(s)
    ensures InFlight(s) == InFlight(DoEmit(d, s)) + multiset{s.next}
  {
    ChannelPush(s.channel, StoreFrames(SerialBatch(d, s.memory, s.pending[s.next]).1));
    KeysRemove(s.pending, s.next);
  }

  lemma EmitDecodes<S>(d: Decoding<S>, s: State<S>)
    requires Inv(d, s) && CanEmit(s)
    ensures s.emitted < |s.log|
    ensures var (memory, done) := SerialBatch(d, s.memory, s.pending[s.next]);
      Sequential(d, Flatten(s.log[..s.emitted + 1])) == (memory, s.store + Storing(s.channel) + done)
  {
    NextBatch(d, s);
    assert s.log[..s.emitted + 1] == s.log[..s.emitted] + [s.log[s.emitted]];
    FlattenSnoc(s.log[..s.emitted], s.log[s.emitted]);
    SequentialBatch(d, Flatten(s.log[..s.emitted]), s.log[s.emitted]);
  }

  lemma EmitLogOk<S>(d: Decoding<S>, s: State<S>)
    requires Inv(d, s) && CanEmit(s)
    ensures LogOk(DoEmit(d, s))
  {
    NextBatch(d, s);
  }

  lemma EmitStoring<S>(d: Decoding<S>, s: State<S>, done: Batch)
    requires CanEmit(s) && done == SerialBatch(d, s.memory, s.pending[s.next]).1
    ensures var t := DoEmit(d, s); t.store + Storing(t.channel) == s.store + Storing(s.channel) + done
  {
    StoringPush(s.channel, StoreFrames(done));
    assert s.store + Storing(s.channel) + done == s.store + (Storing(s.channel) + done);
  }

  lemma EmitInStep<S>(d: Decoding<S>, s: State<S>, done: Batch)
    requires CanEmit(s) && s.emitted < |s.log|
    requires done == SerialBatch(d, s.memory, s.pending[s.next]).1
    requires Sequential(d, Flatten(s.log[..s.emitted + 1])) ==
      (SerialBatch(d, s.memory, s.pending[s.next]).0, s.store + Storing(s.channel) + done)
    ensures InStep(d, DoEmit(d, s))
  {
    var t := DoEmit(d, s);
    assert t.log[..t.emitted] == s.log[..s.emitted + 1];
    EmitStoring(d, s, done);
  }

  lemma StartsPop(log: seq<seq<Layer>>, from: nat)
    requires from < |log|
    ensures multiset(Starts(log, from)) == multiset(Starts(log, from + 1)) + multiset{Start(log, from)}
  {
    assert Starts(log, from) == [Start(log, from)] + Starts(log, from + 1);
  }

  lemma EmitConserves<S>(d: Decoding<S>, s: State<S>)
    requires CanEmit(s) && s.emitted < |s.log| && s.next == Start(s.log, s.emitted) && Conserved(s)
    ensures Conserved(DoEmit(d, s))
  {
    EmitMoves(d, s);
    StartsPop(s.log, s.emitted);
    Cancel(InFlight(DoEmit(d, s)), multiset(Starts(s.log, s.emitted + 1)), s.next);
  }

  lemma Cancel(a: multiset<int>, b: multiset<int>, x: int)
    requires a + multiset{x} == b + multiset{x}
    ensures a == b
  {
    assert a == a + multiset{x} - multiset{x};
  }

  lemma EmitBatchesOk<S>(d: Decoding<S>, s: State<S>)
    requires Inv(d, s) && CanEmit(s) && s.draining
    ensures BatchesOk(d, DoEmit(d, s))
  {
    EmitKeepsBatches(d, s);
    ChannelPush(s.channel, StoreFrames(SerialBatch(d, s.memory, s.pending[s.next]).1));
  }

  lemma EmitKeeps<S>(d: Decoding<S>, s: State<S>)
    requires Inv(d, s) && CanEmit(s) && s.draining
    ensures Inv(d, DoEmit(d, s))
  {
    EmitLogOk(d, s);
    EmitBatchesOk(d, s);
    EmitDecodes(d, s);
    EmitInStep(d, s, SerialBatch(d, s.memory, s.pending[s.next]).1);
    EmitConserves(d, s);
  }

  // ---- The event loop

  lemma RawStable(log: seq<seq<Layer>>, roots: seq<Layer>, j: nat)
    requires j <= |log|
    ensures Start(log + [roots], j) == Start(log, j)
    ensures j < |log| ==> Raw(log + [roots], j) == Raw(log, j)
  {
    assert (log + [roots])[..j] == log[..j];
  }

  lemma BatchesStable<S>(d: Decoding<S>, log: seq<seq<Layer>>, roots: seq<Layer>, from: nat, b: Batch)
    ensures IsRaw(log, from, b) ==> IsRaw(log + [roots], from, b)
    ensures IsDecoded(d, log, from, b) ==> IsDecoded(d, log + [roots], from, b)
  {
    forall j | 0 <= j < |log| ensures Raw(log + [roots], j) == Raw(log, j) {
      RawStable(log, roots, j);
    }
    if IsRaw(log, from, b) {
      var j :| from <= j < |log| && b == Raw(log, j);
      assert b == Raw(log + [roots], j);
    }
    if IsDecoded(d, log, from, b) {
      var j :| from <= j < |log| && b == ParallelBatch(d, Raw(log, j));
      assert b == ParallelBatch(d, Raw(log + [roots], j));
    }
  }

  // The event loop's state after accepting a batch.
  function Accept<S>(s: State<S>, roots: seq<Layer>): State<S>
  {
    s.(cnt := (s.cnt + |roots|) % TWO_32,
       parallelQueue := s.parallelQueue + [Number(s.cnt, roots)],
       log := s.log + [roots])
  }

  lemma AcceptNumbers<S>(s: State<S>, roots: seq<Layer>)
    requires LogOk(s) && roots != [] && |Accepted(s)| + |roots| <= TWO_32
    ensures s.cnt == Start(s.log + [roots], |s.log|) == |Accepted(s)|
    ensures Number(s.cnt, roots) == Raw(s.log + [roots], |s.log|)
  {
    assert (s.log + [roots])[..|s.log|] == s.log && (s.log + [roots])[|s.log|] == roots;
  }

  lemma AcceptLogOk<S>(s: State<S>, roots: seq<Layer>)
    requires LogOk(s) && roots != [] && |Accepted(s)| + |roots| <= TWO_32
    ensures LogOk(Accept(s, roots)) && Number(s.cnt, roots) == Raw(s.log + [roots], |s.log|)
    ensures s.cnt == Start(s.log + [roots], |s.log|) == |Accepted(s)|
  {
    AcceptNumbers(s, roots);
    FlattenSnoc(s.log, roots);
    RawStable(s.log, roots, s.emitted);
  }

  lemma AcceptConserves<S>(s: State<S>, roots: seq<Layer>)
    requires LogOk(s) && roots != [] && |Accepted(s)| + |roots| <= TWO_32 && Conserved(s)
    ensures Conserved(Accept(s, roots))
  {
    AcceptLogOk(s, roots);
    var log := s.log + [roots];
    var b := Number(s.cnt, roots);
    FirstsPush(s.parallelQueue, b);
    forall j | 0 <= j <= |s.log| ensures Start(log, j) == Start(s.log, j) {
      RawStable(s.log, roots, j);
    }
    assert Starts(log, s.emitted) == Starts(s.log, s.emitted) + [Start(log, |s.log|)];
    assert First(b) == Start(log, |s.log|);
  }

  lemma AcceptBatchesOk<S>(d: Decoding<S>, s: State<S>, roots: seq<Layer>)
    requires LogOk(s) && roots != [] && |Accepted(s)| + |roots| <= TWO_32 && BatchesOk(d, s)
    ensures BatchesOk(d, Accept(s, roots))
  {
    AcceptLogOk(s, roots);
    forall b: Batch {
      BatchesStable(d, s.log, roots, s.emitted, b);
    }
    assert IsRaw(s.log + [roots], s.emitted, Number(s.cnt, roots));
  }

  // All but the filter results.
  ghost predicate Decoded<S>(d: Decoding<S>, s: State<S>)
  {
    LogOk(s) && BatchesOk(d, s) && Conserved(s) && InStep(d, s)
  }

  lemma AcceptKeeps<S>(d: Decoding<S>, s: State<S>, roots: seq<Layer>)
    requires Decoded(d, s) && roots != [] && |Accepted(s)| + |roots| <= TWO_32
    ensures Decoded(d, Accept(s, roots))
  {
    AcceptLogOk(s, roots);
    AcceptConserves(s, roots);
    AcceptBatchesOk(d, s, roots);
    assert (s.log + [roots])[..s.emitted] == s.log[..s.emitted];
  }

  // Taking a command that carries no decoded batch and no frames changes nothing in flight.
  lemma DropCommand<S>(d: Decoding<S>, s: State<S>)
    requires Decoded(d, s) && s.channel != [] && FromOutside(s.channel[0])
    ensures Decoded(d, s.(channel := s.channel[1..]))
  {
    ChannelPop(s.channel);
  }

  lemma ForwardMoves<S>(s: State<S>)
    requires s.channel != [] && s.channel[0].PushSerialFrames?
    ensures InFlight(s.(channel := s.channel[1..], serialQueue := s.serialQueue + [s.channel[0].batch])) == InFlight(s)
  {
    ChannelPop(s.channel);
    FirstsPush(s.serialQueue, s.channel[0].batch);
    FirstsPop(Returning(s.channel));
  }

  lemma ForwardKeeps<S>(d: Decoding<S>, s: State<S>)
    requires Decoded(d, s) && s.channel != [] && s.channel[0].PushSerialFrames?
    ensures Decoded(d, s.(channel := s.channel[1..], serialQueue := s.serialQueue + [s.channel[0].batch]))
  {
    ChannelPop(s.channel);
    ForwardMoves(s);
  }

  lemma StoreKeeps<S>(d: Decoding<S>, s: State<S>)
    requires Decoded(d, s) && s.channel != [] && s.channel[0].StoreFrames?
    ensures Decoded(d, s.(channel := s.channel[1..], store := s.store + s.channel[0].batch))
  {
    ChannelPop(s.channel);
    var b := s.channel[0].batch;
    assert s.store + (b + Storing(s.channel[1..])) == s.store + b + Storing(s.channel[1..]);
  }

  lemma InputDecodes<S>(d: Decoding<S>, s: State<S>, cmd: Command)
    requires Decoded(d, s) && FromOutside(cmd) && |Accepted(RunCommand(s, cmd))| <= TWO_32
    ensures Decoded(d, RunCommand(s, cmd))
  {
    if cmd.PushFrames? {
      if cmd.result.Some? && cmd.result.value != [] {
        FlattenSnoc(s.log, cmd.result.value);
        AcceptKeeps(d, s, cmd.result.value);
        assert RunCommand(s, cmd) == Accept(s, cmd.result.value);
      }
    } else if cmd.SetFilter? {
      ResultsApart(d, s, PushFilter(s.results, cmd.id, cmd.filter));
    }
  }

  lemma CommandDecodes<S>(d: Decoding<S>, s: State<S>)
    requires Decoded(d, s) && s.channel != []
    requires |Accepted(RunCommand(s.(channel := s.channel[1..]), s.channel[0]))| <= TWO_32
    ensures Decoded(d, RunCommand(s.(channel := s.channel[1..]), s.channel[0]))
  {
    if s.channel[0].PushSerialFrames? {
      ForwardKeeps(d, s);
    } else if s.channel[0].StoreFrames? {
      StoreKeeps(d, s);
    } else {
      DropCommand(d, s);
      InputDecodes(d, s.(channel := s.channel[1..]), s.channel[0]);
    }
  }

  // Decoding does not look at filter results.
  lemma ResultsApart<S>(d: Decoding<S>, s: State<S>, r: Results)
    requires Decoded(d, s)
    ensures Decoded(d, s.(results := r))
  {
  }

  lemma CommandBehind<S>(s: State<S>, cmd: Command)
    requires UpToDate(s.results, s.store)
    ensures var t := RunCommand(s, cmd); AllBehind(t.results, t.store)
  {
    StoreGrows(s.results, s.store, if cmd.StoreFrames? then cmd.batch else []);
    assert s.store + [] == s.store;
    if cmd.SetFilter? {
      PushFilterForgets(s.results, cmd.id, cmd.filter, s.store);
    }
  }

  lemma LoopKeeps<S>(d: Decoding<S>, s: State<S>)
    requires Inv(d, s) && s.channel != [] && |Accepted(DoLoop(s))| <= TWO_32
    ensures Inv(d, DoLoop(s))
  {
    var t := RunCommand(s.(channel := s.channel[1..]), s.channel[0]);
    CommandDecodes(d, s);
    CommandBehind(s.(channel := s.channel[1..]), s.channel[0]);
    CatchUpCompletes(t.results, t.store);
    ResultsApart(d, t, CatchUp(t.results, t.store));
  }

  // ---- All runs

  lemma InitInv<S>(d: Decoding<S>)
    ensures Inv(d, Init(d))
  {
    var s := Init(d);
    assert Firsts([]) == [] && Starts(s.log, 0) == [];
    assert InFlight(s) == multiset{};
  }

  lemma DoKeeps<S>(d: Decoding<S>, workers: nat, s: State<S>, step: Step)
    requires Enabled(workers, s, step) && Inv(d, s) && |Accepted(Do(d, workers, s, step))| <= TWO_32
    ensures Inv(d, Do(d, workers, s, step))
  {
    match step {
      case Input(cmd) => InputKeeps(d, s, cmd);
      case Loop => LoopKeeps(d, s);
      case Take => TakeKeeps(d, s);
      case Finish(i) => FinishKeeps(d, s, i);
      case Receive => ReceiveKeeps(d, s);
      case Emit =>
        if CanEmit(s) {
          EmitKeeps(d, s);
        } else {
          StopKeeps(d, s);
        }
    }
  }

  lemma StopKeeps<S>(d: Decoding<S>, s: State<S>)
    requires Inv(d, s) && !CanEmit(s)
    ensures Inv(d, s.(draining := false))
  {
    if s.next in s.pending {
      NextBatch(d, s);
    }
  }

  lemma AcceptedGrows<S>(d: Decoding<S>, workers: nat, s: State<S>, step: Step)
    requires Enabled(workers, s, step)
    ensures |Accepted(s)| <= |Accepted(Do(d, workers, s, step))|
  {
    if step.Loop? && s.channel[0].PushFrames? && s.channel[0].result.Some? {
      FlattenSnoc(s.log, s.channel[0].result.value);
    }
  }

  lemma {:induction false} RunInv<S>(d: Decoding<S>, workers: nat, schedule: seq<Step>)
    requires |Accepted(Run(d, workers, schedule))| <= TWO_32
    ensures Inv(d, Run(d, workers, schedule))
  {
    if schedule == [] {
      InitInv(d);
    } else {
      var init, step := schedule[..|schedule| - 1], schedule[|schedule| - 1];
      var s := Run(d, workers, init);
      if Enabled(workers, s, step) {
        AcceptedGrows(d, workers, s, step);
        RunInv(d, workers, init);
        DoKeeps(d, workers, s, step);
      } else {
        RunInv(d, workers, init);
      }
    }
  }
}
