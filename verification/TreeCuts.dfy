// What treefy makes of counts that were cut to eight bits (genet-node/session.js, reading what
// genet-kernel/src/decoder/dispatcher.rs stores).
module TreeCuts {
  import opened Base
  import opened LevelOrder
  import opened Tree
  import opened TreeTheorems
  import opened TreeBuilder

  lemma CutCountsFit(kids: seq<nat>)
    requires ValidCounts(kids)
    ensures Fitting(Truncated(kids))
  {
    TruncatedSum(kids);
    RootClaims(kids);
    assert kids[..|kids|] == kids;
  }

  /** The first read reaches every layer exactly if no layer has 256 children or more; otherwise the layers from
      the end of the read on are left out of its tree. */
  lemma AllLayersReadIffNarrow(kids: seq<nat>)
    requires ValidCounts(kids)
    ensures Fitting(Truncated(kids))
    ensures FirstEnd(Truncated(kids)) == |kids| <==> Narrow(kids)
  {
    CutCountsFit(kids);
    if FirstEnd(Truncated(kids)) == |kids| { AllReadIsNarrow(kids); }
    if Narrow(kids) { NarrowIsAllRead(kids); }
  }

  lemma AllReadIsNarrow(kids: seq<nat>)
    requires ValidCounts(kids) && Fitting(Truncated(kids)) && FirstEnd(Truncated(kids)) == |kids|
    ensures Narrow(kids)
  {
    TruncatedSum(kids);
    RootClaims(kids);
    assert Truncated(kids)[|kids|..] == [];
    assert kids[..|kids|] == kids;
  }

  lemma NarrowIsAllRead(kids: seq<nat>)
    requires ValidCounts(kids) && Fitting(Truncated(kids)) && Narrow(kids)
    ensures FirstEnd(Truncated(kids)) == |kids|
  {
    assert Truncated(kids) == kids;
    UsesAllCounts(kids);
  }

  /** With a zero for each layer of the first read behind cut counts, the second read goes through. */
  lemma CutCountsReadTwice(kids: seq<nat>, zeros: nat)
    requires ValidCounts(kids)
    ensures Fitting(Truncated(kids))
    ensures FirstEnd(Truncated(kids)) <= zeros ==> SecondFits(Truncated(kids), Zeros(zeros))
  {
    CutCountsFit(kids);
    var counts := Truncated(kids);
    var e := FirstEnd(counts);
    if e <= zeros {
      var second := SecondCounts(counts, Zeros(zeros));
      assert second == counts[e..] + Zeros(e);
      SumAppend(counts[e..], Zeros(e));
      ZeroClaims(e);
    }
  }

  /** A root with 256 children and no others: its count is 0, the tree is the root alone, and every other layer is
      lost, with the zeros of a second pass or without. */
  lemma WideRootLosesAll(zeros: nat, k: nat)
    requires k < 0x101
    ensures var kids := [0x100] + Zeros(0x100);
      ValidCounts(kids) && Fitting(Truncated(kids)) && SecondFits(Truncated(kids), Zeros(zeros))
      && ReadUpTo(Truncated(kids), Zeros(zeros)) == 1
      && ChildrenOf(Truncated(kids), Zeros(zeros), k) == if k == 0 then Some([]) else None
  {
    var kids := [0x100] + Zeros(0x100);
    StarIsValid(0x100);
    assert Truncated(kids) == Zeros(0x101);
    AloneOnZeros(0x101, zeros, k);
  }

  // A root whose children are all leaves.
  lemma StarStart(n: nat, i: nat)
    requires 0 < i <= n + 1
    ensures ChildStart([n] + Zeros(n), i) == 1 + n
  {
    assert ([n] + Zeros(n))[..i] == [n] + Zeros(i - 1);
    SumAppend([n], Zeros(i - 1));
    ZeroClaims(i - 1);
    assert [n][..0] == [];
  }

  lemma StarIsValid(n: nat)
    ensures ValidCounts([n] + Zeros(n))
  {
    var kids := [n] + Zeros(n);
    StarStart(n, n + 1);
    forall i | 0 <= i < |kids| ensures i < ChildStart(kids, i) {
      if i > 0 { StarStart(n, i); }
    }
  }

  lemma AloneOnZeros(n: nat, zeros: nat, k: nat)
    requires k < n
    ensures Fitting(Zeros(n)) && SecondFits(Zeros(n), Zeros(zeros))
    ensures ReadUpTo(Zeros(n), Zeros(zeros)) == 1
    ensures ChildrenOf(Zeros(n), Zeros(zeros), k) == if k == 0 then Some([]) else None
  {
    var counts := Zeros(n);
    ZeroClaims(n);
    FirstClaims(counts);
    FirstZero(n, k);
    var rest := RestOf(counts, Zeros(zeros));
    assert rest == Zeros(n - 1 + zeros);
    if ReadsTwice(counts, Zeros(zeros)) {
      var m := Min(n, n - 1 + zeros);
      assert SecondCounts(counts, Zeros(zeros)) == Zeros(m);
      ZeroClaims(m);
      FirstZero(m, k);
      SecondPlanIs(counts, Zeros(zeros));
    }
    FirstPlanIs(counts);
  }

  // Of zeros, only the root is read, and it gets no children.
  lemma FirstZero(n: nat, k: nat)
    requires n > 0
    ensures Claimed(Zeros(n), 0, 1, 1) <= n && EndOf(Zeros(n), 0, 1, 1) == 1
    ensures var plan := Plan(Zeros(n), 0, 1, 1);
      && (k in plan <==> k == 0)
      && forall before: Option<seq<nat>> {:trigger Appended(before, plan, Zeros(n), k)} ::
        Appended(before, plan, Zeros(n), k) ==
          if k == 0 then Some(if before.Some? then before.value else []) else before
  {
    ZeroClaims(n);
    FirstClaims(Zeros(n));
    ZeroBlock(Zeros(n), 0, 1, 1);
    PlanIs(Zeros(n), 0, 1, 1, k);
    var plan := Plan(Zeros(n), 0, 1, 1);
    forall before: Option<seq<nat>>
      ensures Appended(before, plan, Zeros(n), k) ==
        if k == 0 then Some(if before.Some? then before.value else []) else before
    {
      var kids := if before.Some? then before.value else [];
      if k in plan { assert kids + Numbers(plan[k], plan[k] + 0) == kids; }
    }
  }
}
