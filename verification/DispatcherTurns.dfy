// Whose turn it is: in what order a pass calls the decoders.
module DispatcherTurns {
  import opened Base
  import opened Frames
  import opened Dispatcher

  // Decoder d accepted one of the first n calls.
  ghost predicate Took(calls: seq<Call>, n: nat, d: nat)
    requires n <= |calls|
  {
    exists k: nat :: k < n && calls[k].decoder == d && calls[k].accepted
  }

  // So did all decoders from lo up to hi.
  ghost predicate AllTook(calls: seq<Call>, n: nat, lo: nat, hi: nat)
    requires n <= |calls|
  {
    forall d: nat :: lo <= d < hi ==> Took(calls, n, d)
  }

  // After the first n calls it is decoder r's turn to be offered a layer: every decoder that was passed over, on
  // the way up or by starting again from the first, has accepted one before.
  ghost predicate IsNext(calls: seq<Call>, n: nat, layer: nat, r: nat, count: nat)
    requires n <= |calls|
  {
    if n == 0 then AllTook(calls, n, 0, r)
    else
      var last := calls[n - 1];
      last.layer <= layer &&
      if last.layer == layer && last.decoder < r then AllTook(calls, n, last.decoder + 1, r)
      else AllTook(calls, n, last.decoder + 1, count) && AllTook(calls, n, 0, r)
  }

  ghost predicate InTurn(calls: seq<Call>, k: nat, count: nat)
    requires k < |calls|
  {
    var c := calls[k];
    c.decoder < count && !Took(calls, k, c.decoder) && IsNext(calls, k, c.layer, c.decoder, count)
  }

  ghost predicate AllInTurn(calls: seq<Call>, count: nat)
  {
    forall k: nat :: k < |calls| ==> InTurn(calls, k, count)
  }

  // The used flags are the history, and it is the turn of runner r.
  ghost predicate Ready<W>(p: Pass<W>, index: nat, r: nat)
  {
    && AllInTurn(p.calls, |p.used|)
    && (forall d: nat :: d < |p.used| ==> (p.used[d] <==> Took(p.calls, |p.calls|, d)))
    && IsNext(p.calls, |p.calls|, index, r, |p.used|)
  }

  lemma TookBefore(calls: seq<Call>, c: Call, n: nat, d: nat)
    requires n <= |calls|
    ensures Took(calls + [c], n, d) <==> Took(calls, n, d)
  {
    var all := calls + [c];
    if k: nat :| k < n && all[k].decoder == d && all[k].accepted { assert calls[k] == all[k]; }
    if k: nat :| k < n && calls[k].decoder == d && calls[k].accepted { assert calls[k] == all[k]; }
  }

  lemma TookOneMore(calls: seq<Call>, c: Call, d: nat)
    ensures Took(calls + [c], |calls| + 1, d) <==> Took(calls, |calls|, d) || (c.decoder == d && c.accepted)
  {
    var all := calls + [c];
    if k: nat :| k < |calls| + 1 && all[k].decoder == d && all[k].accepted {
      if k < |calls| { assert calls[k] == all[k]; }
    }
    if k: nat :| k < |calls| && calls[k].decoder == d && calls[k].accepted { assert calls[k] == all[k]; }
    if c.decoder == d && c.accepted { assert all[|calls|] == c; }
  }

  lemma NextBefore(calls: seq<Call>, c: Call, n: nat, layer: nat, r: nat, count: nat)
    requires n <= |calls|
    ensures IsNext(calls + [c], n, layer, r, count) <==> IsNext(calls, n, layer, r, count)
  {
    forall d: nat ensures Took(calls + [c], n, d) <==> Took(calls, n, d) {
      TookBefore(calls, c, n, d);
    }
  }

  lemma InTurnOneMore(calls: seq<Call>, c: Call, count: nat)
    requires AllInTurn(calls, count) && c.decoder < count && !Took(calls, |calls|, c.decoder)
    requires IsNext(calls, |calls|, c.layer, c.decoder, count)
    ensures AllInTurn(calls + [c], count)
  {
    var all := calls + [c];
    forall k: nat | k < |all| ensures InTurn(all, k, count) {
      if k < |calls| { assert InTurn(calls, k, count); }
      TookBefore(calls, c, k, all[k].decoder);
      NextBefore(calls, c, k, all[k].layer, all[k].decoder, count);
    }
  }

  lemma OfferInTurn<W(!new)>(ds: seq<Decoder<W>>, p: Pass<W>, index: nat, r: nat, next: nat)
    requires Fits(ds, p) && Polite(ds) && index < |p.layers| && r < |ds| && next == r + 1 && Ready(p, index, r)
    ensures Ready(Offer(ds, p, index, r), index, next)
  {
    var q := Offer(ds, p, index, r);
    if !p.used[r] {
      var c := Call(r, index, p.layers, q.used[r]);
      assert q.calls == p.calls + [c] && q.calls[|p.calls|] == c;
      InTurnOneMore(p.calls, c, |ds|);
      forall d: nat | d < |ds| ensures q.used[d] <==> Took(q.calls, |q.calls|, d) {
        TookOneMore(p.calls, c, d);
      }
    }
  }

  lemma {:induction false} SweepInTurn<W(!new)>(ds: seq<Decoder<W>>, p: Pass<W>, index: nat, r: nat)
    requires Fits(ds, p) && Polite(ds) && index < |p.layers| && r <= |ds| && Ready(p, index, r)
    ensures Ready(Sweep(ds, p, index, r), index, |ds|)
    decreases |ds| - r
  {
    if r < |ds| {
      var next := r + 1;
      OfferInTurn(ds, p, index, r, next);
      SweepUnfolds(ds, p, index, r, next);
      SweepInTurn(ds, Offer(ds, p, index, r), index, next);
    }
  }

  // After the last runner it is the first one's turn, with this layer or the next.
  lemma StartsAgain<W>(p: Pass<W>, index: nat)
    requires Ready(p, index, |p.used|)
    ensures Ready(p, index, 0)
  {
  }

  lemma {:induction false} SettleInTurn<W(!new)>(ds: seq<Decoder<W>>, p: Pass<W>, index: nat)
    requires Fits(ds, p) && Polite(ds) && index < |p.layers| && Ready(p, index, 0)
    ensures Ready(Settle(ds, p, index), index, 0)
    decreases Unused(p.used)
  {
    var q := Sweep(ds, p, index, 0);
    SweepInTurn(ds, p, index, 0);
    StartsAgain(q, index);
    if q.used != p.used { SettleInTurn(ds, q, index); }
  }

  lemma VisitInTurn<W(!new)>(ds: seq<Decoder<W>>, p: Pass<W>, index: nat, next: nat)
    requires Fits(ds, p) && Polite(ds) && index < |p.layers| && Ready(p, index, 0) && next == index + 1
    ensures Ready(Visit(ds, p, index), next, 0)
  {
    SettleInTurn(ds, p, index);
  }

  lemma {:induction false} VisitRangeInTurn<W(!new)>(ds: seq<Decoder<W>>, p: Pass<W>, index: nat, end: nat)
    requires Fits(ds, p) && Polite(ds) && index <= end <= |p.layers| && Ready(p, index, 0)
    ensures Ready(VisitRange(ds, p, index, end), end, 0)
    decreases end - index
  {
    if index < end {
      var next := index + 1;
      VisitInTurn(ds, p, index, next);
      VisitRangeUnfolds(ds, p, index, next, end);
      VisitRangeInTurn(ds, Visit(ds, p, index), next, end);
    }
  }

  lemma {:induction false} RoundsInTurn<W(!new)>(ds: seq<Decoder<W>>, p: Pass<W>, offset: nat)
    requires Fits(ds, p) && Polite(ds) && offset <= |p.layers| && Ready(p, offset, 0)
    ensures AllInTurn(Rounds(ds, p, offset).calls, |ds|)
    decreases Unused(p.used)
  {
    var size := |p.layers|;
    var q := VisitRange(ds, p, offset, size);
    VisitRangeInTurn(ds, p, offset, size);
    RoundsUnfold(ds, p, offset, q, size);
    if |q.layers| > size { RoundsInTurn(ds, q, size); }
  }

  /** In a pass over any frame the layers are offered in order, and each of them to one decoder after the other, from
      the first to the last and then again from the first, leaving out exactly those that have accepted a layer. */
  lemma EveryoneInTurn<W(!new)>(ds: seq<Decoder<W>>, workers: seq<Option<W>>, body: Body)
    requires |workers| == |ds| && Polite(ds)
    ensures AllInTurn(Process(ds, workers, body).calls, |ds|)
  {
    RoundsInTurn(ds, Begin(workers, body), 0);
  }
}
