// The level-order encoding of a layer tree: counts[i] is the number of children of layer i, layer 0 is the
// root, and each layer's children follow those of all layers before it.
module LevelOrder {
  import opened Base

  // Where the children of layer i begin.
  function ChildStart(counts: seq<nat>, i: nat): nat
    requires i <= |counts|
  {
    1 + Sum(counts[..i])
  }

  // Layer j is a child of layer i.
  predicate IsChild(counts: seq<nat>, i: nat, j: nat)
  {
    i < |counts| && ChildStart(counts, i) <= j < ChildStart(counts, i + 1)
  }

  // The list describes one tree: every layer comes after its parent, and the counts add up.
  predicate ValidCounts(counts: seq<nat>)
  {
    && ChildStart(counts, |counts|) == |counts|
    && forall i :: 0 <= i < |counts| ==> i < ChildStart(counts, i)
  }

  lemma ChildStartStep(counts: seq<nat>, i: nat)
    requires i < |counts|
    ensures ChildStart(counts, i + 1) == ChildStart(counts, i) + counts[i]
  {
    SumPrefixStep(counts, i);
  }

  lemma ChildStartMonotone(counts: seq<nat>, i: nat, j: nat)
    requires i <= j <= |counts|
    ensures ChildStart(counts, i) <= ChildStart(counts, j)
  {
    SumPrefixMonotone(counts, i, j);
  }

  /** No layer is the child of two layers: the blocks do not overlap. */
  lemma OneParent(kids: seq<nat>, i: nat, i': nat, j: nat)
    requires IsChild(kids, i, j) && IsChild(kids, i', j)
    ensures i == i'
  {
    if i < i' {
      ChildStartMonotone(kids, i + 1, i');
    } else if i' < i {
      ChildStartMonotone(kids, i' + 1, i);
    }
  }

  // ---- Counts cut to eight bits

  function Truncated(kids: seq<nat>): (s: seq<nat>)
    ensures |s| == |kids|
  {
    seq(|kids|, i requires 0 <= i < |kids| => kids[i] % 0x100)
  }

  // No layer has more children than a u8 can count.
  predicate Narrow(kids: seq<nat>)
  {
    forall i :: 0 <= i < |kids| ==> kids[i] < 0x100
  }

  lemma {:induction false} TruncatedSum(kids: seq<nat>)
    ensures Sum(Truncated(kids)) <= Sum(kids)
    ensures Sum(Truncated(kids)) == Sum(kids) <==> Narrow(kids)
  {
    if kids != [] {
      var init, last := kids[..|kids| - 1], kids[|kids| - 1];
      TruncatedSum(init);
      assert Truncated(kids)[..|kids| - 1] == Truncated(init);
      assert kids == init + [last];
      assert Narrow(kids) <==> Narrow(init) && last < 0x100;
    }
  }
}
