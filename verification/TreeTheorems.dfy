// When the rebuilt tree is the dispatcher's tree.
module TreeTheorems {
  import opened Base
  import opened LevelOrder
  import opened Tree

  predicate NoParents(counts: seq<nat>, lo: nat, hi: nat)
    requires hi <= |counts|
  {
    forall k :: lo <= k < hi ==> counts[k] == 0
  }

  /** At each depth, only the last layer that has children has grandchildren. The layers lo..hi are
      those of one depth; the next depth begins at hi. */
  predicate LastParentOnly(counts: seq<nat>, lo: nat, hi: nat)
    requires ValidCounts(counts) && lo <= hi <= |counts|
    decreases |counts| - lo
  {
    lo == hi || (FromLayer(counts, lo, hi) && LastParentOnly(counts, hi, LevelEnd(counts, hi)))
  }

  function LevelEnd(counts: seq<nat>, hi: nat): (end: nat)
    requires ValidCounts(counts) && hi <= |counts|
    ensures hi <= end <= |counts|
  {
    ChildStartMonotone(counts, hi, |counts|);
    ChildStart(counts, hi)
  }

  // The condition on one depth, for the layers from i on.
  predicate FromLayer(counts: seq<nat>, i: nat, hi: nat)
    requires hi <= |counts|
  {
    forall u, v :: i <= u < v < hi && counts[u] > 0 && counts[v] > 0 ==> Childless(counts, u)
  }

  // Layer u has no grandchildren.
  predicate Childless(counts: seq<nat>, u: nat)
    requires u < |counts|
  {
    forall w :: ChildStart(counts, u) <= w < ChildStart(counts, u + 1) && w < |counts| ==> counts[w] == 0
  }

  // The layers served in a loop have their children where the dispatcher put them.
  ghost predicate Agrees(counts: seq<nat>, i: nat, end: nat, cur: nat)
    requires i <= end <= cur <= |counts| && Claimed(counts, i, end, cur) <= |counts|
  {
    forall k: nat :: Served(counts, i, end, cur, k) && counts[k] > 0 ==> StartOf(counts, i, end, cur, k) == ChildStart(counts, k)
  }

  // ---- Blocks without parents

  lemma {:induction false} SumZero(counts: seq<nat>, lo: nat, hi: nat)
    requires lo <= hi <= |counts| && NoParents(counts, lo, hi)
    ensures Sum(counts[lo..hi]) == 0
  {
    if lo < hi {
      SumZero(counts, lo, hi - 1);
      assert counts[lo..hi][..hi - lo - 1] == counts[lo..hi - 1];
    } else {
      assert counts[lo..hi] == [];
    }
  }

  lemma ChildStartZero(counts: seq<nat>, lo: nat, hi: nat)
    requires lo <= hi <= |counts| && NoParents(counts, lo, hi)
    ensures ChildStart(counts, lo) == ChildStart(counts, hi)
  {
    SumZero(counts, lo, hi);
    SumAppend(counts[..lo], counts[lo..hi]);
    assert counts[..hi] == counts[..lo] + counts[lo..hi];
  }

  lemma {:induction false} ZeroBlock(counts: seq<nat>, i: nat, end: nat, cur: nat)
    requires i <= end <= cur <= |counts| && Claimed(counts, i, end, cur) <= |counts|
    requires NoParents(counts, i, end)
    ensures EndOf(counts, i, end, cur) == cur && Agrees(counts, i, end, cur)
    decreases end - i
  {
    if i < end {
      TakeChildren(counts, i, end, cur);
      ZeroBlock(counts, i + 1, end, cur);
    }
  }

  lemma NoChildrenStep(counts: seq<nat>, i: nat, end: nat, cur: nat)
    requires i < end <= cur <= |counts| && Claimed(counts, i, end, cur) <= |counts| && counts[i] == 0
    ensures MidOf(counts, i, end, cur) == cur
  {
  }

  // The first layer of a block that has children takes the next layers.
  lemma {:induction false} FirstParent(counts: seq<nat>, i: nat, end: nat, cur: nat, w: nat)
    requires i <= w < end <= cur <= |counts| && Claimed(counts, i, end, cur) <= |counts|
    requires NoParents(counts, i, w)
    ensures StartOf(counts, i, end, cur, w) == cur
    decreases end - i
  {
    if i < w {
      NoChildrenStep(counts, i, end, cur);
      FirstStart(counts, i, end, cur, w);
      FirstParent(counts, i + 1, end, cur, w);
    }
  }

  lemma ClaimsAt(counts: seq<nat>, i: nat, b: nat, hi: nat)
    requires ValidCounts(counts) && i <= b <= hi <= |counts| && hi <= ChildStart(counts, i) <= |counts|
    requires NoParents(counts, b, hi) && NoParents(counts, hi, ChildStart(counts, i))
    ensures Claimed(counts, i, b, ChildStart(counts, i)) == |counts|
  {
    var cur, n := ChildStart(counts, i), |counts|;
    SumSplit(counts, 0, i, n);
    SumSplit(counts, i, b, n);
    SumSplit(counts, b, hi, n);
    SumSplit(counts, hi, cur, n);
    SumZero(counts, b, hi);
    SumZero(counts, hi, cur);
    assert counts[0..n] == counts[..n] && counts[0..i] == counts[..i] && counts[cur..n] == counts[cur..];
  }

  lemma AgreesStep(counts: seq<nat>, i: nat, end: nat, cur: nat, next: nat, mid: nat)
    requires i < end <= cur <= |counts| && Claimed(counts, i, end, cur) <= |counts|
    requires next == NextOf(counts, i, cur) && mid == MidOf(counts, i, end, cur)
    ensures Agrees(counts, i, end, cur) <==>
      && (counts[i] > 0 ==> cur == ChildStart(counts, i))
      && Agrees(counts, cur, next, next) && Agrees(counts, i + 1, end, mid)
  {
    forall k: nat
      ensures Served(counts, i, end, cur, k) <==>
        k == i || Served(counts, cur, next, next, k) || Served(counts, i + 1, end, mid, k)
      ensures Served(counts, cur, next, next, k) ==>
        StartOf(counts, i, end, cur, k) == StartOf(counts, cur, next, next, k)
      ensures k != i && Served(counts, i + 1, end, mid, k) ==>
        StartOf(counts, i, end, cur, k) == StartOf(counts, i + 1, end, mid, k)
    {
      if Served(counts, i, end, cur, k) {
        FirstStart(counts, i, end, cur, k);
      }
    }
    assert Served(counts, i, end, cur, i);
    FirstStart(counts, i, end, cur, i);
  }

  lemma ZeroLevel(counts: seq<nat>, lo: nat, hi: nat)
    requires ValidCounts(counts) && lo <= hi <= |counts| && NoParents(counts, lo, hi) && hi == ChildStart(counts, lo)
    ensures LastParentOnly(counts, lo, hi)
  {
    ChildStartZero(counts, lo, hi);
  }

  // ---- The comparison, depth by depth

  // lo..hi are the layers of one depth. The loop stands at layer i of a block that ends at b and holds all
  // parents of this depth from i on; the layers below earlier ones of the block are all leaves.
  predicate Standing(counts: seq<nat>, lo: nat, hi: nat, i: nat, b: nat)
  {
    && ValidCounts(counts) && lo <= i <= b <= hi <= |counts| && lo < hi == ChildStart(counts, lo)
    && hi <= ChildStart(counts, i) <= |counts|
    && NoParents(counts, b, hi) && NoParents(counts, hi, ChildStart(counts, i))
  }

  // What the condition still asks for at layer i.
  predicate Verdict(counts: seq<nat>, hi: nat, i: nat)
    requires ValidCounts(counts) && hi <= |counts|
  {
    FromLayer(counts, i, hi) && LastParentOnly(counts, hi, LevelEnd(counts, hi))
  }

  lemma {:induction false} Walk(counts: seq<nat>, lo: nat, hi: nat, i: nat, b: nat)
    requires Standing(counts, lo, hi, i, b)
    ensures Claimed(counts, i, b, ChildStart(counts, i)) == |counts|
    ensures Agrees(counts, i, b, ChildStart(counts, i)) <==> Verdict(counts, hi, i)
    decreases |counts| - lo, b - i
  {
    ClaimsAt(counts, i, b, hi);
    if i == b {
      WalkEnd(counts, lo, hi, i);
    } else if NoParents(counts, i + 1, hi) {
      WalkLast(counts, lo, hi, i, b);
    } else {
      ChildStartStep(counts, i);
      TakeChildren(counts, i, b, ChildStart(counts, i));
      if NoParents(counts, ChildStart(counts, i), ChildStart(counts, i + 1)) {
        Walk(counts, lo, hi, i + 1, b);
        WalkOn(counts, lo, hi, i, b);
      } else {
        WalkStuck(counts, lo, hi, i, b);
      }
    }
  }

  lemma WalkEnd(counts: seq<nat>, lo: nat, hi: nat, i: nat)
    requires Standing(counts, lo, hi, i, i) && Claimed(counts, i, i, ChildStart(counts, i)) <= |counts|
    ensures Agrees(counts, i, i, ChildStart(counts, i)) && Verdict(counts, hi, i)
  {
    ZeroBlock(counts, i, i, ChildStart(counts, i));
    ChildStartZero(counts, i, hi);
    ZeroLevel(counts, hi, ChildStart(counts, i));
  }

  // Layer i has no grandchildren: the loop goes on behind its children.
  lemma WalkOn(counts: seq<nat>, lo: nat, hi: nat, i: nat, b: nat)
    requires i < b && Standing(counts, lo, hi, i, b) && Claimed(counts, i, b, ChildStart(counts, i)) <= |counts|
    requires ChildStart(counts, i) <= ChildStart(counts, i + 1) <= |counts|
    requires NoParents(counts, ChildStart(counts, i), ChildStart(counts, i + 1))
    requires Claimed(counts, i + 1, b, ChildStart(counts, i + 1)) <= |counts|
    ensures Agrees(counts, i, b, ChildStart(counts, i)) <==> Agrees(counts, i + 1, b, ChildStart(counts, i + 1))
    ensures Verdict(counts, hi, i) <==> Verdict(counts, hi, i + 1)
  {
    ChildStartStep(counts, i);
    AgreesOn(counts, i, b, ChildStart(counts, i), ChildStart(counts, i + 1));
    VerdictOn(counts, i, hi);
  }

  lemma AgreesOn(counts: seq<nat>, i: nat, b: nat, cur: nat, next: nat)
    requires i < b <= cur <= next <= |counts| && Claimed(counts, i, b, cur) <= |counts|
    requires cur == ChildStart(counts, i) && next == NextOf(counts, i, cur) && NoParents(counts, cur, next)
    requires Claimed(counts, i + 1, b, next) <= |counts|
    ensures Agrees(counts, i, b, cur) <==> Agrees(counts, i + 1, b, next)
  {
    ZeroMid(counts, i, b, cur, next);
    AgreesStep(counts, i, b, cur, next, next);
  }

  lemma ZeroMid(counts: seq<nat>, i: nat, b: nat, cur: nat, next: nat)
    requires i < b <= cur <= next <= |counts| && Claimed(counts, i, b, cur) <= |counts|
    requires next == NextOf(counts, i, cur) && NoParents(counts, cur, next)
    ensures MidOf(counts, i, b, cur) == next && Agrees(counts, cur, next, next)
  {
    var mid := MidOf(counts, i, b, cur);
    ZeroBlock(counts, cur, next, next);
  }

  lemma VerdictOn(counts: seq<nat>, i: nat, hi: nat)
    requires ValidCounts(counts) && i < hi <= |counts| && ChildStart(counts, i + 1) <= |counts|
    requires NoParents(counts, ChildStart(counts, i), ChildStart(counts, i + 1))
    ensures FromLayer(counts, i, hi) <==> FromLayer(counts, i + 1, hi)
  {
    assert Childless(counts, i);
  }

  // Layer i is the last parent of its depth, or there is none: all parents of the next depth are its children.
  lemma {:induction false} WalkLast(counts: seq<nat>, lo: nat, hi: nat, i: nat, b: nat)
    requires i < b && Standing(counts, lo, hi, i, b) && Claimed(counts, i, b, ChildStart(counts, i)) <= |counts|
    requires NoParents(counts, i + 1, hi)
    ensures Agrees(counts, i, b, ChildStart(counts, i)) <==> Verdict(counts, hi, i)
    decreases |counts| - lo, 0
  {
    var cur, next := ChildStart(counts, i), ChildStart(counts, i + 1);
    ChildStartStep(counts, i);
    ChildStartZero(counts, i + 1, hi);
    AgreesLast(counts, i, b, cur, next);
    NextDepth(counts, hi, cur, next);
  }

  lemma AgreesLast(counts: seq<nat>, i: nat, b: nat, cur: nat, next: nat)
    requires i < b <= cur <= |counts| && Claimed(counts, i, b, cur) <= |counts|
    requires cur == ChildStart(counts, i) && next == NextOf(counts, i, cur) && NoParents(counts, i + 1, b)
    ensures next <= |counts| && Claimed(counts, cur, next, next) <= |counts|
    ensures Agrees(counts, i, b, cur) <==> Agrees(counts, cur, next, next)
  {
    var mid := MidOf(counts, i, b, cur);
    AgreesStep(counts, i, b, cur, next, mid);
    ZeroBlock(counts, i + 1, b, mid);
  }

  // The next depth hi..next, whose parents all lie in cur..next.
  lemma {:induction false} NextDepth(counts: seq<nat>, hi: nat, cur: nat, next: nat)
    requires ValidCounts(counts) && hi <= cur <= next <= |counts| && next == ChildStart(counts, hi)
    requires NoParents(counts, hi, cur) && Claimed(counts, cur, next, next) <= |counts|
    ensures Agrees(counts, cur, next, next) <==> LastParentOnly(counts, hi, next)
    decreases |counts| - hi, |counts| + 1
  {
    if hi == next {
      ZeroBlock(counts, cur, next, next);
    } else {
      ChildStartZero(counts, hi, cur);
      assert next == ChildStart(counts, cur);
      Walk(counts, hi, next, cur, next);
      assert FromLayer(counts, hi, next) <==> FromLayer(counts, cur, next);
    }
  }

  // Layer i has grandchildren, but is not the last parent of its depth.
  lemma WalkStuck(counts: seq<nat>, lo: nat, hi: nat, i: nat, b: nat)
    requires i < b && Standing(counts, lo, hi, i, b) && Claimed(counts, i, b, ChildStart(counts, i)) <= |counts|
    requires !NoParents(counts, i + 1, hi)
    requires ChildStart(counts, i) <= ChildStart(counts, i + 1) <= |counts|
    requires !NoParents(counts, ChildStart(counts, i), ChildStart(counts, i + 1))
    ensures !Agrees(counts, i, b, ChildStart(counts, i)) && !Verdict(counts, hi, i)
  {
    var cur, next := ChildStart(counts, i), ChildStart(counts, i + 1);
    ChildStartStep(counts, i);
    var w := LeastParent(counts, cur, next);
    var v := LeastParent(counts, i + 1, hi);
    StartsLater(counts, next, i, v, w);
    AgreesStuck(counts, i, b, cur, next, w);
    NotFromLayer(counts, hi, i, v, w);
  }

  lemma AgreesStuck(counts: seq<nat>, i: nat, b: nat, cur: nat, next: nat, w: nat)
    requires i < b <= cur <= w < next <= |counts| && Claimed(counts, i, b, cur) <= |counts|
    requires next == NextOf(counts, i, cur) && NoParents(counts, cur, w) && counts[w] > 0 && next < ChildStart(counts, w)
    ensures !Agrees(counts, i, b, cur)
  {
    var mid := MidOf(counts, i, b, cur);
    ChildrenTooEarly(counts, cur, next, w);
    AgreesStep(counts, i, b, cur, next, mid);
  }

  lemma NotFromLayer(counts: seq<nat>, hi: nat, i: nat, v: nat, w: nat)
    requires i < v < hi <= |counts| && w < |counts| && counts[i] > 0 && counts[v] > 0 && counts[w] > 0
    requires ChildStart(counts, i) <= w < ChildStart(counts, i + 1)
    ensures !FromLayer(counts, i, hi)
  {
    assert !Childless(counts, i);
  }

  // The children of layer w belong behind those of the parent v before it.
  lemma StartsLater(counts: seq<nat>, next: nat, i: nat, v: nat, w: nat)
    requires i < v < w <= |counts| && counts[v] > 0 && next == ChildStart(counts, i + 1)
    ensures next < ChildStart(counts, w)
  {
    ChildStartMonotone(counts, i + 1, v);
    ChildStartStep(counts, v);
    ChildStartMonotone(counts, v + 1, w);
  }

  // But layer w takes the layers from next on.
  lemma ChildrenTooEarly(counts: seq<nat>, cur: nat, next: nat, w: nat)
    requires cur <= w < next <= |counts| && Claimed(counts, cur, next, next) <= |counts|
    requires NoParents(counts, cur, w) && counts[w] > 0 && next < ChildStart(counts, w)
    ensures !Agrees(counts, cur, next, next)
  {
    FirstParent(counts, cur, next, next, w);
    assert Served(counts, cur, next, next, w);
  }

  lemma LeastParent(counts: seq<nat>, lo: nat, hi: nat) returns (w: nat)
    requires hi <= |counts| && !NoParents(counts, lo, hi)
    ensures lo <= w < hi && counts[w] > 0 && NoParents(counts, lo, w)
  {
    w := lo;
    while counts[w] == 0
      invariant lo <= w < hi && NoParents(counts, lo, w)
      decreases hi - w
    {
      w := w + 1;
    }
  }

  /** treefy gives every layer the children that the dispatcher gave it exactly when, at each depth, only
      the last layer that has children has grandchildren. */
  lemma RebuiltIffLastParentOnly(counts: seq<nat>)
    requires ValidCounts(counts)
    ensures |counts| > 0
    ensures (forall k: nat :: k < |counts| && counts[k] > 0 ==> RebuiltStart(counts, k) == ChildStart(counts, k))
      <==> LastParentOnly(counts, 0, 1)
  {
    UsesAllCounts(counts);
    assert counts[..0] == [];
    Walk(counts, 0, 1, 0, 1);
    assert Agrees(counts, 0, 1, 1) <==>
      forall k: nat :: k < |counts| && counts[k] > 0 ==> RebuiltStart(counts, k) == ChildStart(counts, k);
  }

  // The list of a root with two children, each with one, the first of these with one again.
  lemma SixLayers()
    ensures var counts := [2, 1, 1, 1, 0, 0];
      && ValidCounts(counts) && ChildStart(counts, 1) == 3
      && ChildStart(counts, 2) == 4 && ChildStart(counts, 3) == 5 && ChildStart(counts, 4) == 6
  {
    var counts := [2, 1, 1, 1, 0, 0];
    assert ChildStart(counts, 0) == 1;
    ChildStartStep(counts, 0);
    ChildStartStep(counts, 1);
    ChildStartStep(counts, 2);
    ChildStartStep(counts, 3);
    ChildStartStep(counts, 4);
    ChildStartStep(counts, 5);
    assert counts[0] == 2 && counts[1] == counts[2] == counts[3] == 1 && counts[4] == counts[5] == 0;
  }

  // A layer without children alone in its loop reads nothing.
  lemma LeafAlone(counts: seq<nat>, i: nat, cur: nat)
    requires i < cur <= |counts| && Claimed(counts, i, i + 1, cur) <= |counts| && counts[i] == 0
    ensures EndOf(counts, i, i + 1, cur) == cur
  {
    NoChildrenStep(counts, i, i + 1, cur);
    var mid := MidOf(counts, i, i + 1, cur);
    assert EndOf(counts, i + 1, i + 1, mid) == mid;
  }

  predicate IsSixLayers(counts: seq<nat>)
  {
    && ValidCounts(counts) && |counts| == 6
    && counts[0] == 2 && counts[1] == 1 && counts[2] == 1 && counts[3] == 1 && counts[4] == 0 && counts[5] == 0
  }

  // Below the first child: its child, layer 3, takes layer 4, and layer 5 is next.
  lemma SixLayersBelowFirst(counts: seq<nat>)
    requires IsSixLayers(counts) && Claimed(counts, 1, 3, 3) <= |counts|
    ensures MidOf(counts, 1, 3, 3) == 5
    ensures Claimed(counts, 3, 4, 4) <= |counts|
  {
    var mid := MidOf(counts, 1, 3, 3);
    var below := MidOf(counts, 3, 4, 4);
    LeafAlone(counts, 4, 5);
    assert EndOf(counts, 4, 4, below) == below;
  }

  lemma SixLayersRebuilt(counts: seq<nat>)
    requires IsSixLayers(counts)
    ensures RebuiltStart(counts, 2) == 5 && RebuiltStart(counts, 3) == 4
  {
    UsesAllCounts(counts);
    assert MidOf(counts, 0, 1, 1) == EndOf(counts, 1, 3, 3);
    SixLayersBelowFirst(counts);
    FirstStart(counts, 0, 1, 1, 2);
    FirstStart(counts, 0, 1, 1, 3);
    FirstStart(counts, 1, 3, 3, 2);
    FirstStart(counts, 1, 3, 3, 3);
    FirstStart(counts, 2, 3, 5, 2);
    FirstStart(counts, 3, 4, 4, 3);
  }

  /** In the list of six layers, the layer below the first grandchild and the layer below the second child
      change places. */
  lemma GrandchildrenChangePlaces()
    ensures var counts := [2, 1, 1, 1, 0, 0];
      && ValidCounts(counts)
      && ChildStart(counts, 2) == 4 && RebuiltStart(counts, 2) == 5
      && ChildStart(counts, 3) == 5 && RebuiltStart(counts, 3) == 4
  {
    SixLayers();
    SixLayersRebuilt([2, 1, 1, 1, 0, 0]);
  }
}
