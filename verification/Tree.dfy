// Rebuilding the layer tree from the child counts (genet-node/session.js, consume and treefy).
module Tree {
  import opened Base
  import opened LevelOrder

  // Layers read, or claimed by a layer not read yet, when the stacks were read up to cur.
  function Unread(counts: seq<nat>, cur: nat): nat
    requires cur <= |counts|
  {
    cur + Sum(counts[cur..])
  }

  // The same with the claims of the layers i..end, which were read but have not taken their children.
  function Claimed(counts: seq<nat>, i: nat, end: nat, cur: nat): nat
    requires i <= end <= cur <= |counts|
  {
    Unread(counts, cur) + Sum(counts[i..end])
  }

  lemma SumSplit(counts: seq<nat>, i: nat, j: nat, k: nat)
    requires i <= j <= k <= |counts|
    ensures Sum(counts[i..k]) == Sum(counts[i..j]) + Sum(counts[j..k])
  {
    assert counts[i..k] == counts[i..j] + counts[j..k];
    SumAppend(counts[i..j], counts[j..k]);
  }

  lemma SumOne(counts: seq<nat>, i: nat)
    requires i < |counts|
    ensures Sum(counts[i..i + 1]) == counts[i]
  {
    assert counts[i..i + 1] == [counts[i]];
    assert [counts[i]][..0] == [];
  }

  // The child layers are read and have their own claims; nothing is lost.
  lemma TakeChildren(counts: seq<nat>, i: nat, end: nat, cur: nat)
    requires i < end <= cur <= |counts| && Claimed(counts, i, end, cur) <= |counts|
    ensures cur + counts[i] <= |counts|
    ensures var next := cur + counts[i];
      Claimed(counts, cur, next, next) == Unread(counts, cur) + counts[i]
    ensures Sum(counts[i..end]) == counts[i] + Sum(counts[i + 1..end])
  {
    SumSplit(counts, i, i + 1, end);
    SumOne(counts, i);
    SumSplit(counts, cur, cur + counts[i], |counts|);
    assert counts[cur..|counts|] == counts[cur..];
    assert counts[cur + counts[i]..|counts|] == counts[cur + counts[i]..];
  }

  lemma NoClaims(counts: seq<nat>, i: nat, cur: nat)
    requires i <= cur <= |counts|
    ensures Claimed(counts, i, i, cur) == Unread(counts, cur)
  {
    assert counts[i..i] == [];
  }

  // Where the children of layer i end, when they begin at cur.
  function NextOf(counts: seq<nat>, i: nat, cur: nat): (next: nat)
    requires i < |counts|
    ensures cur <= next
  {
    cur + counts[i]
  }

  // The loop of consume over the layers i..end of one call, when the layers before cur are read: each layer
  // takes the next counts[i] layers, and these take theirs before the loop goes on. EndOf is how far
  // the stacks are read in the end.
  function EndOf(counts: seq<nat>, i: nat, end: nat, cur: nat): (e: nat)
    requires i <= end <= cur <= |counts| && Claimed(counts, i, end, cur) <= |counts|
    ensures cur <= e <= |counts| && Unread(counts, e) == Claimed(counts, i, end, cur)
    decreases |counts| - cur, end - i
  {
    if i == end then
      NoClaims(counts, i, cur);
      cur
    else
      TakeChildren(counts, i, end, cur);
      var mid := EndOf(counts, cur, NextOf(counts, i, cur), NextOf(counts, i, cur));
      EndOf(counts, i + 1, end, mid)
  }

  // One turn of the loop: where things are after the layers below layer i are served.
  function MidOf(counts: seq<nat>, i: nat, end: nat, cur: nat): (mid: nat)
    requires i < end <= cur <= |counts| && Claimed(counts, i, end, cur) <= |counts|
    ensures NextOf(counts, i, cur) <= mid <= |counts|
    ensures Claimed(counts, cur, NextOf(counts, i, cur), NextOf(counts, i, cur)) <= |counts|
    ensures mid == EndOf(counts, cur, NextOf(counts, i, cur), NextOf(counts, i, cur))
    ensures Claimed(counts, i + 1, end, mid) <= |counts|
    ensures EndOf(counts, i, end, cur) == EndOf(counts, i + 1, end, mid)
  {
    TakeChildren(counts, i, end, cur);
    EndOf(counts, cur, NextOf(counts, i, cur), NextOf(counts, i, cur))
  }

  // The layers that take their children in this loop.
  predicate Served(counts: seq<nat>, i: nat, end: nat, cur: nat, k: nat)
    requires i <= end <= cur <= |counts| && Claimed(counts, i, end, cur) <= |counts|
  {
    i <= k < end || cur <= k < EndOf(counts, i, end, cur)
  }

  // Where the children of layer k begin in the rebuilt tree.
  function StartOf(counts: seq<nat>, i: nat, end: nat, cur: nat, k: nat): (start: nat)
    requires i <= end <= cur <= |counts| && Claimed(counts, i, end, cur) <= |counts|
    requires Served(counts, i, end, cur, k)
    ensures cur <= start && k < start
    ensures start + counts[k] <= EndOf(counts, i, end, cur)
    decreases |counts| - cur, end - i
  {
    var next, mid := NextOf(counts, i, cur), MidOf(counts, i, end, cur);
    if k == i then cur
    else if cur <= k < mid then StartOf(counts, cur, next, next, k)
    else StartOf(counts, i + 1, end, mid, k)
  }

  // The layer below which layer j is placed.
  function OwnerOf(counts: seq<nat>, i: nat, end: nat, cur: nat, j: nat): (k: nat)
    requires i <= end <= cur <= |counts| && Claimed(counts, i, end, cur) <= |counts|
    requires cur <= j < EndOf(counts, i, end, cur)
    ensures k < |counts|
    decreases |counts| - cur, end - i
  {
    var next, mid := NextOf(counts, i, cur), MidOf(counts, i, end, cur);
    if j < next then i
    else if j < mid then OwnerOf(counts, cur, next, next, j)
    else OwnerOf(counts, i + 1, end, mid, j)
  }

  // Who is served: the layer itself, the layers below it, and the rest of the loop.
  lemma ServedTurn(counts: seq<nat>, i: nat, end: nat, cur: nat, next: nat, mid: nat, k: nat)
    requires i < end <= cur <= |counts| && Claimed(counts, i, end, cur) <= |counts|
    requires next == NextOf(counts, i, cur) && mid == MidOf(counts, i, end, cur)
    ensures next <= |counts| && Claimed(counts, cur, next, next) <= |counts| && Claimed(counts, i + 1, end, mid) <= |counts|
    ensures Served(counts, i, end, cur, k) <==>
      k == i || Served(counts, cur, next, next, k) || Served(counts, i + 1, end, mid, k)
    ensures Served(counts, cur, next, next, k) ==> cur <= k < mid
    ensures Served(counts, i + 1, end, mid, k) ==> k != i && !(cur <= k < mid)
  {
  }

  lemma FirstStart(counts: seq<nat>, i: nat, end: nat, cur: nat, k: nat)
    requires i < end <= cur <= |counts| && Claimed(counts, i, end, cur) <= |counts|
    requires Served(counts, i, end, cur, k)
    ensures var next, mid := NextOf(counts, i, cur), MidOf(counts, i, end, cur);
      StartOf(counts, i, end, cur, k) ==
        if k == i then cur
        else if cur <= k < mid then StartOf(counts, cur, next, next, k)
        else StartOf(counts, i + 1, end, mid, k)
  {
  }

  lemma FirstOwner(counts: seq<nat>, i: nat, end: nat, cur: nat, j: nat)
    requires i < end <= cur <= |counts| && Claimed(counts, i, end, cur) <= |counts|
    requires cur <= j < EndOf(counts, i, end, cur)
    ensures var next, mid := NextOf(counts, i, cur), MidOf(counts, i, end, cur);
      OwnerOf(counts, i, end, cur, j) ==
        if j < next then i
        else if j < mid then OwnerOf(counts, cur, next, next, j)
        else OwnerOf(counts, i + 1, end, mid, j)
  {
  }

  lemma {:induction false} OwnerIsServed(counts: seq<nat>, i: nat, end: nat, cur: nat, j: nat)
    requires i <= end <= cur <= |counts| && Claimed(counts, i, end, cur) <= |counts|
    requires cur <= j < EndOf(counts, i, end, cur)
    ensures Served(counts, i, end, cur, OwnerOf(counts, i, end, cur, j))
    decreases |counts| - cur, end - i
  {
    var next, mid := NextOf(counts, i, cur), MidOf(counts, i, end, cur);
    FirstOwner(counts, i, end, cur, j);
    var owner := OwnerOf(counts, i, end, cur, j);
    if next <= j < mid {
      OwnerIsServed(counts, cur, next, next, j);
      ServedTurn(counts, i, end, cur, next, mid, owner);
    } else if mid <= j {
      OwnerIsServed(counts, i + 1, end, mid, j);
      ServedTurn(counts, i, end, cur, next, mid, owner);
    }
  }

  // Layer j is among those that layer k takes exactly if k owns it.
  predicate TakesOwned(counts: seq<nat>, i: nat, end: nat, cur: nat, k: nat, j: nat)
    requires i <= end <= cur <= |counts| && Claimed(counts, i, end, cur) <= |counts|
    requires Served(counts, i, end, cur, k) && cur <= j < EndOf(counts, i, end, cur)
  {
    var start := StartOf(counts, i, end, cur, k);
    start <= j < start + counts[k] <==> k == OwnerOf(counts, i, end, cur, j)
  }

  lemma TakesOwnedTurn(counts: seq<nat>, i: nat, end: nat, cur: nat, next: nat, mid: nat, k: nat, j: nat)
    requires i < end <= cur <= |counts| && Claimed(counts, i, end, cur) <= |counts|
    requires Served(counts, i, end, cur, k) && cur <= j < EndOf(counts, i, end, cur)
    requires next == NextOf(counts, i, cur) && mid == MidOf(counts, i, end, cur)
    requires cur <= k < mid && next <= j < mid ==> TakesOwned(counts, cur, next, next, k, j)
    requires k != i && !(cur <= k < mid) && mid <= j ==> TakesOwned(counts, i + 1, end, mid, k, j)
    ensures TakesOwned(counts, i, end, cur, k, j)
  {
    FirstStart(counts, i, end, cur, k);
    FirstOwner(counts, i, end, cur, j);
    ServedTurn(counts, i, end, cur, next, mid, k);
    var owner := OwnerOf(counts, i, end, cur, j);
    ServedTurn(counts, i, end, cur, next, mid, owner);
    if next <= j < mid { OwnerIsServed(counts, cur, next, next, j); }
    if mid <= j { OwnerIsServed(counts, i + 1, end, mid, j); }
  }

  // In this loop, layer k takes exactly the layers that it owns.
  lemma {:induction false} TakesWhatItOwns(counts: seq<nat>, i: nat, end: nat, cur: nat, k: nat, j: nat)
    requires i < end <= cur <= |counts| && Claimed(counts, i, end, cur) <= |counts|
    requires Served(counts, i, end, cur, k) && cur <= j < EndOf(counts, i, end, cur)
    ensures TakesOwned(counts, i, end, cur, k, j)
    decreases |counts| - cur, end - i
  {
    var next, mid := NextOf(counts, i, cur), MidOf(counts, i, end, cur);
    if k != i && cur <= k < mid && next <= j < mid {
      TakesWhatItOwns(counts, cur, next, next, k, j);
    } else if k != i && !(cur <= k < mid) && mid <= j {
      TakesWhatItOwns(counts, i + 1, end, mid, k, j);
    }
    TakesOwnedTurn(counts, i, end, cur, next, mid, k, j);
  }

  lemma RootClaims(counts: seq<nat>)
    requires ValidCounts(counts)
    ensures |counts| > 0 && Claimed(counts, 0, 1, 1) == |counts|
  {
    assert counts[..|counts|] == counts;
    SumSplit(counts, 0, 1, |counts|);
    assert counts[0..|counts|] == counts && counts[1..|counts|] == counts[1..];
  }

  /** A valid list is used up exactly: as many counts are read as there are layers. */
  lemma UsesAllCounts(counts: seq<nat>)
    requires ValidCounts(counts)
    ensures |counts| > 0 && Claimed(counts, 0, 1, 1) == |counts|
    ensures EndOf(counts, 0, 1, 1) == |counts|
  {
    RootClaims(counts);
    var cur := EndOf(counts, 0, 1, 1);
    SumSplit(counts, 0, cur, |counts|);
    assert counts[0..cur] == counts[..cur] && counts[cur..|counts|] == counts[cur..];
    assert counts[0..|counts|] == counts == counts[..|counts|];
    assert cur == ChildStart(counts, cur);
  }

  // Where the children of layer k begin in the tree that treefy builds.
  function RebuiltStart(counts: seq<nat>, k: nat): (start: nat)
    requires ValidCounts(counts) && k < |counts|
    ensures k < start && start + counts[k] <= |counts|
  {
    UsesAllCounts(counts);
    StartOf(counts, 0, 1, 1, k)
  }

  /** Every layer but the root is placed exactly once, below a layer before it; layer k gets exactly
      counts[k] children. */
  lemma PlacedOnce(counts: seq<nat>, j: nat) returns (k: nat)
    requires ValidCounts(counts) && 0 < j < |counts|
    ensures k < j && RebuiltStart(counts, k) <= j < RebuiltStart(counts, k) + counts[k]
    ensures forall k': nat | k' < |counts| ::
      RebuiltStart(counts, k') <= j < RebuiltStart(counts, k') + counts[k'] ==> k' == k
  {
    UsesAllCounts(counts);
    k := OwnerOf(counts, 0, 1, 1, j);
    OwnerIsServed(counts, 0, 1, 1, j);
    TakesWhatItOwns(counts, 0, 1, 1, k, j);
    forall k': nat | k' < |counts|
      ensures RebuiltStart(counts, k') <= j < RebuiltStart(counts, k') + counts[k'] ==> k' == k
    {
      TakesWhatItOwns(counts, 0, 1, 1, k', j);
    }
  }
}
