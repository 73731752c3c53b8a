// Bounds that a caller can give: decoders without a worker, and how many layers a decoder adds.
module DispatcherBounds {
  import opened Base
  import opened Frames
  import opened LevelOrder
  import opened Dispatcher
  import opened DispatcherTheorems

  // ---- Decoders of the other execution type

  // The same decoders, where there is a worker.
  ghost predicate SameCrew<W(!new)>(ds: seq<Decoder<W>>, es: seq<Decoder<W>>, workers: seq<Option<W>>)
  {
    |ds| == |es| == |workers| && forall r :: 0 <= r < |ds| && workers[r].Some? ==> ds[r] == es[r]
  }

  lemma {:induction false} SweepSame<W(!new)>(ds: seq<Decoder<W>>, es: seq<Decoder<W>>, p: Pass<W>, index: nat, r: nat)
    requires Fits(ds, p) && Polite(ds) && Polite(es) && index < |p.layers| && r <= |ds| && SameCrew(ds, es, p.workers)
    ensures Sweep(ds, p, index, r) == Sweep(es, p, index, r)
    ensures SameCrew(ds, es, Sweep(ds, p, index, r).workers)
    decreases |ds| - r
  {
    if r < |ds| {
      var o := Offer(ds, p, index, r);
      assert o == Offer(es, p, index, r);
      SweepSame(ds, es, o, index, r + 1);
    }
  }

  lemma {:induction false} SettleSame<W(!new)>(ds: seq<Decoder<W>>, es: seq<Decoder<W>>, p: Pass<W>, index: nat)
    requires Fits(ds, p) && Polite(ds) && Polite(es) && index < |p.layers| && SameCrew(ds, es, p.workers)
    ensures Settle(ds, p, index) == Settle(es, p, index)
    ensures SameCrew(ds, es, Settle(ds, p, index).workers)
    decreases Unused(p.used)
  {
    SweepSame(ds, es, p, index, 0);
    var q := Sweep(ds, p, index, 0);
    if q.used != p.used { SettleSame(ds, es, q, index); }
  }

  lemma VisitSame<W(!new)>(ds: seq<Decoder<W>>, es: seq<Decoder<W>>, p: Pass<W>, index: nat)
    requires Fits(ds, p) && Polite(ds) && Polite(es) && index < |p.layers| && SameCrew(ds, es, p.workers)
    ensures Visit(ds, p, index) == Visit(es, p, index)
    ensures SameCrew(ds, es, Visit(ds, p, index).workers)
  {
    SettleSame(ds, es, p, index);
  }

  lemma {:induction false} VisitRangeSame<W(!new)>(ds: seq<Decoder<W>>, es: seq<Decoder<W>>, p: Pass<W>, index: nat, end: nat)
    requires Fits(ds, p) && Polite(ds) && Polite(es) && index <= end <= |p.layers| && SameCrew(ds, es, p.workers)
    ensures VisitRange(ds, p, index, end) == VisitRange(es, p, index, end)
    ensures SameCrew(ds, es, VisitRange(ds, p, index, end).workers)
    decreases end - index
  {
    if index < end {
      VisitSame(ds, es, p, index);
      VisitRangeSame(ds, es, Visit(ds, p, index), index + 1, end);
    }
  }

  lemma {:induction false} RoundsSame<W(!new)>(ds: seq<Decoder<W>>, es: seq<Decoder<W>>, p: Pass<W>, offset: nat)
    requires Fits(ds, p) && Polite(ds) && Polite(es) && offset <= |p.layers| && SameCrew(ds, es, p.workers)
    ensures Rounds(ds, p, offset) == Rounds(es, p, offset)
    decreases Unused(p.used)
  {
    VisitRangeSame(ds, es, p, offset, |p.layers|);
    var q := VisitRange(ds, p, offset, |p.layers|);
    if |q.layers| > |p.layers| { RoundsSame(ds, es, q, |p.layers|); }
  }

  /** A decoder without a worker has no part in a pass: any other decoder could stand in its place, and every
      layer, count and call would be the same. */
  lemma IdleDecodersDoNotMatter<W(!new)>(ds: seq<Decoder<W>>, es: seq<Decoder<W>>, workers: seq<Option<W>>, body: Body)
    requires SameCrew(ds, es, workers) && Polite(ds) && Polite(es)
    ensures Process(ds, workers, body) == Process(es, workers, body)
  {
    RoundsSame(ds, es, Begin(workers, body), 0);
  }

  // ---- How many children

  // No call adds more than most layers.
  ghost predicate AddsAtMost<W(!new)>(ds: seq<Decoder<W>>, most: nat)
  {
    forall r, w, layers, index :: 0 <= r < |ds| ==> FewChildren(ds[r].decode(w, layers, index), most)
  }

  predicate FewChildren<W>(o: Outcome<W>, most: nat)
  {
    |o.children| <= most
  }

  // Between p and q every decoder that accepted added most layers at most.
  predicate Adds<W>(p: Pass<W>, q: Pass<W>, most: nat)
  {
    |q.layers| - |p.layers| <= most * (Unused(p.used) - Unused(q.used))
  }

  lemma Distributes(most: nat, a: int, b: int)
    ensures most * (a + b) == most * a + most * b
  {
  }

  lemma AddsTwice<W>(p: Pass<W>, o: Pass<W>, q: Pass<W>, most: nat)
    requires Adds(p, o, most) && Adds(o, q, most)
    ensures Adds(p, q, most)
  {
    Distributes(most, Unused(p.used) - Unused(o.used), Unused(o.used) - Unused(q.used));
  }

  lemma OfferAdds<W(!new)>(ds: seq<Decoder<W>>, p: Pass<W>, index: nat, r: nat, most: nat)
    requires Fits(ds, p) && Polite(ds) && AddsAtMost(ds, most) && index < |p.layers| && r < |ds|
    ensures Adds(p, Offer(ds, p, index, r), most)
  {
    if !p.used[r] {
      UnusedUpdate(p.used, r);
      if p.workers[r].Some? {
        var o := ds[r].decode(p.workers[r].value, p.layers, index);
        assert FewChildren(o, most) && PoliteCall(o);
        assert p.used[r := false] == p.used;
        assert most * 1 == most;
      }
    }
  }

  lemma {:induction false} SweepAdds<W(!new)>(ds: seq<Decoder<W>>, p: Pass<W>, index: nat, r: nat, most: nat)
    requires Fits(ds, p) && Polite(ds) && AddsAtMost(ds, most) && index < |p.layers| && r <= |ds|
    ensures Adds(p, Sweep(ds, p, index, r), most)
    decreases |ds| - r
  {
    if r < |ds| {
      var o, next := Offer(ds, p, index, r), r + 1;
      OfferAdds(ds, p, index, r, most);
      SweepUnfolds(ds, p, index, r, next);
      SweepAdds(ds, o, index, next, most);
      AddsTwice(p, o, Sweep(ds, o, index, next), most);
    }
  }

  lemma {:induction false} SettleAdds<W(!new)>(ds: seq<Decoder<W>>, p: Pass<W>, index: nat, most: nat)
    requires Fits(ds, p) && Polite(ds) && AddsAtMost(ds, most) && index < |p.layers|
    ensures Adds(p, Settle(ds, p, index), most)
    decreases Unused(p.used)
  {
    var q := Sweep(ds, p, index, 0);
    SweepAdds(ds, p, index, 0, most);
    if q.used != p.used {
      SettleAdds(ds, q, index, most);
      AddsTwice(p, q, Settle(ds, q, index), most);
    }
  }

  lemma {:induction false} UnusedBounded(used: seq<bool>)
    ensures Unused(used) <= |used|
  {
    if used != [] { UnusedBounded(used[..|used| - 1]); }
  }

  // Every count so far is at most what all decoders together can add.
  predicate KidsAtMost(kids: seq<nat>, most: nat, decoders: nat)
  {
    forall i :: 0 <= i < |kids| ==> kids[i] <= most * decoders
  }

  lemma MoreIsMore(most: nat, a: int, b: int)
    requires a <= b
    ensures most * a <= most * b
  {
  }

  lemma VisitKids<W(!new)>(ds: seq<Decoder<W>>, p: Pass<W>, index: nat, most: nat)
    requires Fits(ds, p) && Polite(ds) && AddsAtMost(ds, most) && index < |p.layers| && KidsAtMost(p.kids, most, |ds|)
    ensures KidsAtMost(Visit(ds, p, index).kids, most, |ds|)
  {
    SettleAdds(ds, p, index, most);
    UnusedBounded(p.used);
    MoreIsMore(most, Unused(p.used) - Unused(Settle(ds, p, index).used), |ds|);
  }

  lemma {:induction false} VisitRangeKids<W(!new)>(ds: seq<Decoder<W>>, p: Pass<W>, index: nat, end: nat, most: nat)
    requires Fits(ds, p) && Polite(ds) && AddsAtMost(ds, most) && index <= end <= |p.layers|
    requires KidsAtMost(p.kids, most, |ds|)
    ensures KidsAtMost(VisitRange(ds, p, index, end).kids, most, |ds|)
    decreases end - index
  {
    if index < end {
      VisitKids(ds, p, index, most);
      VisitRangeKids(ds, Visit(ds, p, index), index + 1, end, most);
    }
  }

  lemma {:induction false} RoundsKids<W(!new)>(ds: seq<Decoder<W>>, p: Pass<W>, offset: nat, most: nat)
    requires Fits(ds, p) && Polite(ds) && AddsAtMost(ds, most) && offset <= |p.layers| && KidsAtMost(p.kids, most, |ds|)
    ensures KidsAtMost(Rounds(ds, p, offset).kids, most, |ds|)
    decreases Unused(p.used)
  {
    VisitRangeKids(ds, p, offset, |p.layers|, most);
    var q := VisitRange(ds, p, offset, |p.layers|);
    if |q.layers| > |p.layers| { RoundsKids(ds, q, |p.layers|, most); }
  }

  /** If no call adds more than most layers, and most times the number of decoders is below 256, the stored counts
      are the true ones: a decoder accepts once, so no layer gets more children than that. */
  lemma FewLayersAreNarrow<W(!new)>(ds: seq<Decoder<W>>, workers: seq<Option<W>>, root: Layer, most: nat)
    requires |workers| == |ds| && Polite(ds) && AddsAtMost(ds, most) && most * |ds| < 0x100
    ensures var q := Process(ds, workers, Body([root], []));
      Narrow(q.kids) && q.counts == q.kids && 1 + Sum(q.counts) == |q.layers|
  {
    RoundsKids(ds, Begin(workers, Body([root], [])), 0, most);
    CountsAddUpIff(ds, workers, root);
  }

  // ---- One layer too many

  lemma {:induction false} VisitRangeKeepsKids<W(!new)>(ds: seq<Decoder<W>>, p: Pass<W>, index: nat, end: nat)
    requires Fits(ds, p) && Polite(ds) && index <= end <= |p.layers|
    ensures p.kids <= VisitRange(ds, p, index, end).kids
    decreases end - index
  {
    if index < end {
      var v := Visit(ds, p, index);
      assert p.kids <= v.kids;
      VisitRangeKeepsKids(ds, v, index + 1, end);
    }
  }

  lemma {:induction false} RoundsKeepKids<W(!new)>(ds: seq<Decoder<W>>, p: Pass<W>, offset: nat)
    requires Fits(ds, p) && Polite(ds) && offset <= |p.layers|
    ensures p.kids <= Rounds(ds, p, offset).kids
    decreases Unused(p.used)
  {
    VisitRangeKeepsKids(ds, p, offset, |p.layers|);
    var q := VisitRange(ds, p, offset, |p.layers|);
    if |q.layers| > |p.layers| { RoundsKeepKids(ds, q, |p.layers|); }
  }

  // Adds n empty layers to the first layer it is offered.
  function Adder(n: nat): Decoder<bool>
  {
    Decoder((w: bool, layers: seq<Layer>, index: nat) =>
      if index < |layers| then Outcome(w, Done, layers[index], Repeat(Layer("child", [], [], [], []), n))
      else Outcome(w, Skip, Layer("none", [], [], [], []), []))
  }

  /** A decoder that adds 256 layers to the root: its count is stored as 0, and the counts do not add up. */
  lemma WideLayerIsLost(root: Layer)
    ensures Polite([Adder(0x100)])
    ensures var q := Process([Adder(0x100)], [Some(false)], Body([root], []));
      && |q.kids| > 0 && |q.counts| > 0 && q.kids[0] == 0x100 && q.counts[0] == 0
      && 1 + Sum(q.counts) != |q.layers|
  {
    var ds, ws := [Adder(0x100)], [Some(false)];
    AdderIsPolite(0x100);
    var p := Begin(ws, Body([root], []));
    assert p.used == [false] && Unused([false][..0]) == 0;
    FirstVisit(ds, p, root);
    assert VisitRange(ds, p, 0, 1) == Visit(ds, p, 0);
    RoundsKeepKids(ds, Visit(ds, p, 0), 1);
    WideIsLost(ds, ws, root);
  }

  lemma AdderIsPolite(n: nat)
    ensures Polite([Adder(n)])
  {
    var ds := [Adder(n)];
    forall r, w, layers, index | 0 <= r < |ds| ensures PoliteCall(ds[r].decode(w, layers, index)) { }
  }

  lemma WideIsLost<W(!new)>(ds: seq<Decoder<W>>, ws: seq<Option<W>>, root: Layer)
    requires |ws| == |ds| && Polite(ds)
    requires var q := Process(ds, ws, Body([root], [])); |q.kids| > 0 && q.kids[0] == 0x100
    ensures var q := Process(ds, ws, Body([root], []));
      |q.counts| > 0 && q.counts[0] == 0 && 1 + Sum(q.counts) != |q.layers|
  {
    FirstPassEncodes(ds, ws, root);
    CountsAddUpIff(ds, ws, root);
  }

  lemma FirstVisit(ds: seq<Decoder<bool>>, p: Pass<bool>, root: Layer)
    requires ds == [Adder(0x100)] && Polite(ds) && p == Begin([Some(false)], Body([root], []))
    ensures Visit(ds, p, 0).kids == [0x100] && |Visit(ds, p, 0).layers| == 0x101
  {
    var o := Offer(ds, p, 0, 0);
    assert p.used == [false] && p.workers == [Some(false)] && p.layers == [root];
    var added := Repeat(Layer("child", [], [], [], []), 0x100);
    assert ds[0].decode(false, p.layers, 0) == Outcome(false, Done, root, added);
    assert o.used == [true] && o.layers == [root][0 := root] + added && o.kids == [];
    assert Sweep(ds, p, 0, 0) == Sweep(ds, o, 0, 1) == o;
    assert Sweep(ds, o, 0, 0) == Sweep(ds, Offer(ds, o, 0, 0), 0, 1) == o;
    assert Settle(ds, o, 0) == o;
    assert Settle(ds, p, 0) == o;
    assert [] + [0x100] == [0x100];
  }
}
