// consume and treefy on their mutable stacks and layer objects (genet-node/session.js).
module TreeBuilder {
  import opened Base
  import opened LevelOrder
  import opened Tree
  import opened TreeTheorems

  // What the script adds to a layer object: its children (undefined at first) and its parent.
  datatype Node = Node(children: Option<seq<nat>>, parent: Option<nat>)

  function Kids(n: Node): seq<nat>
  {
    if n.children.Some? then n.children.value else []
  }

  // The layers lo..hi, each named by its position in the frame.
  function Numbers(lo: nat, hi: nat): (s: seq<nat>)
    requires lo <= hi
    ensures |s| == hi - lo && forall k :: 0 <= k < |s| ==> s[k] == lo + k
  {
    seq(hi - lo, k requires 0 <= k => lo + k)
  }

  // Every child points back to its parent.
  ghost predicate Linked(nodes: seq<Node>)
  {
    forall k: nat, j: nat {:trigger PointsBack(nodes, j, k)} :: PointsBack(nodes, j, k)
  }

  predicate PointsBack(nodes: seq<Node>, j: nat, k: nat)
  {
    k < |nodes| && j in Kids(nodes[k]) ==> j < |nodes| && nodes[j].parent == Some(k)
  }

  // The layers from lo on have no parent yet.
  ghost predicate Unplaced(nodes: seq<Node>, lo: nat)
  {
    forall j: nat {:trigger Orphan(nodes, j)} :: lo <= j ==> Orphan(nodes, j)
  }

  predicate Orphan(nodes: seq<Node>, j: nat)
  {
    j < |nodes| ==> nodes[j].parent == None
  }

  // parent.children = (parent.children || []).concat(sub), and the children's parent links.
  function Adopt(nodes: seq<Node>, parent: nat, sub: seq<nat>): (r: seq<Node>)
    requires parent < |nodes|
    ensures |r| == |nodes|
  {
    var children := Kids(nodes[parent]) + sub;
    var named := nodes[parent := nodes[parent].(children := Some(children))];
    seq(|nodes|, j requires 0 <= j < |nodes| => if j in children then named[j].(parent := Some(parent)) else named[j])
  }

  lemma AdoptLinks(nodes: seq<Node>, parent: nat, sub: seq<nat>)
    requires parent < |nodes| && Linked(nodes)
    requires forall j :: j in sub ==> j < |nodes| && Orphan(nodes, j)
    ensures Linked(Adopt(nodes, parent, sub))
  {
    var r := Adopt(nodes, parent, sub);
    forall k: nat, j: nat ensures PointsBack(r, j, k) {
      assert PointsBack(nodes, j, k) && PointsBack(nodes, j, parent);
    }
  }

  // Adopting changes the parent's children and the parent links of layers that had none.
  lemma AdoptKeeps(nodes: seq<Node>, parent: nat, sub: seq<nat>, k: nat)
    requires parent < |nodes| && Linked(nodes) && k < |nodes|
    ensures var r := Adopt(nodes, parent, sub);
      && (k != parent ==> r[k].children == nodes[k].children)
      && (k !in sub ==> r[k].parent == nodes[k].parent)
  {
    assert PointsBack(nodes, k, parent);
  }

  // Which layers a loop serves, and where the children of each begin.
  function Plan(counts: seq<nat>, i: nat, end: nat, cur: nat): map<nat, nat>
    requires i <= end <= cur <= |counts| && Claimed(counts, i, end, cur) <= |counts|
    decreases |counts| - cur, end - i
  {
    if i == end then map[]
    else
      var next, mid := NextOf(counts, i, cur), MidOf(counts, i, end, cur);
      Plan(counts, cur, next, next)[i := cur] + Plan(counts, i + 1, end, mid)
  }

  lemma PlanUnfolds(counts: seq<nat>, i: nat, end: nat, cur: nat, next: nat, mid: nat)
    requires i < end <= cur <= |counts| && Claimed(counts, i, end, cur) <= |counts|
    requires next == NextOf(counts, i, cur) && mid == MidOf(counts, i, end, cur)
    ensures next <= |counts| && Claimed(counts, cur, next, next) <= |counts| && Claimed(counts, i + 1, end, mid) <= |counts|
    ensures Plan(counts, i, end, cur) == Plan(counts, cur, next, next)[i := cur] + Plan(counts, i + 1, end, mid)
  {
  }

  // One turn: the layer itself, the layers below it, and the rest of the loop.
  lemma PlanTurn(counts: seq<nat>, i: nat, end: nat, cur: nat, next: nat, mid: nat, k: nat)
    requires i < end <= cur <= |counts| && Claimed(counts, i, end, cur) <= |counts|
    requires next == NextOf(counts, i, cur) && mid == MidOf(counts, i, end, cur)
    ensures next <= |counts| && Claimed(counts, cur, next, next) <= |counts| && Claimed(counts, i + 1, end, mid) <= |counts|
    ensures var plan, sub, rest := Plan(counts, i, end, cur), Plan(counts, cur, next, next), Plan(counts, i + 1, end, mid);
      && (k in plan <==> k in rest || k == i || k in sub)
      && (k in plan ==> plan[k] == if k in rest then rest[k] else if k == i then cur else sub[k])
  {
    PlanUnfolds(counts, i, end, cur, next, mid);
  }

  // The plan agrees with the functions that say who is served, and from where.
  predicate PlanAgrees(counts: seq<nat>, i: nat, end: nat, cur: nat, k: nat)
    requires i <= end <= cur <= |counts| && Claimed(counts, i, end, cur) <= |counts|
  {
    && (k in Plan(counts, i, end, cur) <==> Served(counts, i, end, cur, k))
    && (Served(counts, i, end, cur, k) ==> Plan(counts, i, end, cur)[k] == StartOf(counts, i, end, cur, k))
  }

  lemma PlanAgreesTurn(counts: seq<nat>, i: nat, end: nat, cur: nat, next: nat, mid: nat, k: nat)
    requires i < end <= cur <= |counts| && Claimed(counts, i, end, cur) <= |counts|
    requires next == NextOf(counts, i, cur) && mid == MidOf(counts, i, end, cur)
    requires next <= |counts| && Claimed(counts, cur, next, next) <= |counts| && PlanAgrees(counts, cur, next, next, k)
    requires Claimed(counts, i + 1, end, mid) <= |counts| && PlanAgrees(counts, i + 1, end, mid, k)
    ensures PlanAgrees(counts, i, end, cur, k)
  {
    PlanTurn(counts, i, end, cur, next, mid, k);
    ServedTurn(counts, i, end, cur, next, mid, k);
    if Served(counts, i, end, cur, k) { FirstStart(counts, i, end, cur, k); }
  }

  lemma {:induction false} PlanIs(counts: seq<nat>, i: nat, end: nat, cur: nat, k: nat)
    requires i <= end <= cur <= |counts| && Claimed(counts, i, end, cur) <= |counts|
    ensures PlanAgrees(counts, i, end, cur, k)
    decreases |counts| - cur, end - i
  {
    if i == end {
      NothingPlanned(counts, end, cur);
    } else {
      var next, mid := NextOf(counts, i, cur), MidOf(counts, i, end, cur);
      PlanTurn(counts, i, end, cur, next, mid, k);
      PlanIs(counts, cur, next, next, k);
      PlanIs(counts, i + 1, end, mid, k);
      PlanAgreesTurn(counts, i, end, cur, next, mid, k);
    }
  }

  // The full plan of a turn is the layer itself, the inner call's plan and what is left.
  ghost predicate Splits(plan: map<nat, nat>, i: nat, at: nat, sub: map<nat, nat>, rest: map<nat, nat>)
  {
    forall k: nat {:trigger SplitsAt(plan, i, at, sub, rest, k)} :: SplitsAt(plan, i, at, sub, rest, k)
  }

  predicate SplitsAt(plan: map<nat, nat>, i: nat, at: nat, sub: map<nat, nat>, rest: map<nat, nat>, k: nat)
  {
    && (k in sub ==> k in plan && plan[k] == sub[k] && k != i && k !in rest)
    && (k in rest ==> k in plan && plan[k] == rest[k] && k != i)
    && (k == i ==> k in plan && plan[k] == at)
    && (k in plan ==> k in sub || k in rest || k == i)
  }

  lemma PlanSplits(counts: seq<nat>, i: nat, end: nat, cur: nat, below: nat, mid: nat)
    requires i < end <= cur <= |counts| && Claimed(counts, i, end, cur) <= |counts|
    requires below == NextOf(counts, i, cur) && mid == MidOf(counts, i, end, cur)
    ensures Splits(Plan(counts, i, end, cur), i, cur, Plan(counts, cur, below, below), Plan(counts, i + 1, end, mid))
  {
    var sub, rest := Plan(counts, cur, below, below), Plan(counts, i + 1, end, mid);
    forall k: nat ensures SplitsAt(Plan(counts, i, end, cur), i, cur, sub, rest, k) {
      PlanIs(counts, cur, below, below, k);
      PlanIs(counts, i + 1, end, mid, k);
      assert Plan(counts, i, end, cur) == sub[i := cur] + rest;
    }
  }

  ghost predicate Within(todo: map<nat, nat>, plan: map<nat, nat>)
  {
    forall k: nat {:trigger PlannedAlike(todo, plan, k)} :: PlannedAlike(todo, plan, k)
  }

  predicate PlannedAlike(todo: map<nat, nat>, plan: map<nat, nat>, k: nat)
  {
    k in todo ==> k in plan && plan[k] == todo[k]
  }

  lemma NothingPlanned(counts: seq<nat>, end: nat, cur: nat)
    requires end <= cur <= |counts| && Claimed(counts, end, end, cur) <= |counts|
    ensures EndOf(counts, end, end, cur) == cur && Plan(counts, end, end, cur) == map[]
  {
  }

  // A served layer has its old children and then its block; the others keep their children. Layers
  // in todo are planned, but not served yet.
  ghost predicate ChildrenOk(counts: seq<nat>, plan: map<nat, nat>, todo: map<nat, nat>, n0: seq<Node>, n: seq<Node>)
  {
    && |n0| == |n| >= |counts|
    && forall k: nat {:trigger HasChildren(counts, plan, todo, n0, n, k)} :: HasChildren(counts, plan, todo, n0, n, k)
  }

  predicate HasChildren(counts: seq<nat>, plan: map<nat, nat>, todo: map<nat, nat>, n0: seq<Node>, n: seq<Node>, k: nat)
    requires |n0| == |n| >= |counts|
  {
    k < |n| ==>
      n[k].children ==
        if k < |counts| && k in plan && k !in todo then Some(Kids(n0[k]) + Numbers(plan[k], plan[k] + counts[k])) else n0[k].children
  }

  lemma ChildrenStep(counts: seq<nat>, plan: map<nat, nat>, todo: map<nat, nat>, sub: map<nat, nat>, rest: map<nat, nat>,
                     i: nat, at: nat, below: nat, n0: seq<Node>, n1: seq<Node>, n2: seq<Node>)
    requires i < |counts| && below == NextOf(counts, i, at) && Splits(todo, i, at, sub, rest) && Within(todo, plan)
    requires ChildrenOk(counts, plan, todo, n0, n1) && ChildrenOk(counts, sub, map[], n1, n2)
    ensures ChildrenOk(counts, plan, rest, n0, Adopt(n2, i, Numbers(at, below)))
    ensures Within(rest, plan)
  {
    var n3 := Adopt(n2, i, Numbers(at, below));
    forall k: nat ensures HasChildren(counts, plan, rest, n0, n3, k) && PlannedAlike(rest, plan, k) {
      assert SplitsAt(todo, i, at, sub, rest, k) && PlannedAlike(todo, plan, k);
      assert HasChildren(counts, sub, map[], n1, n2, k) && HasChildren(counts, plan, todo, n0, n1, k);
      if k < |n3| {
        AdoptChildren(n2, i, Numbers(at, below), k);
        ChildrenAt(counts, plan, todo, sub, rest, i, at, n0, n1, n2, n3, k);
      }
    }
  }

  lemma AdoptChildren(nodes: seq<Node>, parent: nat, sub: seq<nat>, k: nat)
    requires parent < |nodes| && k < |nodes|
    ensures Adopt(nodes, parent, sub)[k].children ==
      if k == parent then Some(Kids(nodes[parent]) + sub) else nodes[k].children
  {
  }

  lemma ChildrenAt(counts: seq<nat>, plan: map<nat, nat>, todo: map<nat, nat>, sub: map<nat, nat>, rest: map<nat, nat>,
                   i: nat, at: nat, n0: seq<Node>, n1: seq<Node>, n2: seq<Node>, n3: seq<Node>, k: nat)
    requires i < |counts| <= |n0| == |n1| == |n2| == |n3| && k < |n0|
    requires SplitsAt(todo, i, at, sub, rest, k) && PlannedAlike(todo, plan, k)
    requires HasChildren(counts, plan, todo, n0, n1, k) && HasChildren(counts, sub, map[], n1, n2, k)
    requires n3[k].children == if k == i then Some(Kids(n2[i]) + Numbers(at, at + counts[i])) else n2[k].children
    ensures HasChildren(counts, plan, rest, n0, n3, k)
  {
    if k == i {
      assert Kids(n2[i]) == Kids(n1[i]) == Kids(n0[i]);
    } else if k in sub {
      assert Kids(n1[k]) == Kids(n0[k]);
    }
  }

  // The parent links: children point back, the layers below next keep theirs, those from at on have none.
  ghost predicate ParentsOk(n0: seq<Node>, n: seq<Node>, next: nat, at: nat)
  {
    && |n0| == |n| && Linked(n) && Unplaced(n, at)
    && forall j: nat {:trigger SameParent(n0, n, j)} :: j < next ==> SameParent(n0, n, j)
  }

  predicate SameParent(n0: seq<Node>, n: seq<Node>, j: nat)
    requires |n0| == |n|
  {
    j < |n| ==> n[j].parent == n0[j].parent
  }

  lemma ParentsStep(n0: seq<Node>, n1: seq<Node>, n2: seq<Node>, i: nat, next: nat, at: nat, below: nat, mid: nat)
    requires i < next <= at <= below <= mid <= |n1|
    requires ParentsOk(n0, n1, next, at) && ParentsOk(n1, n2, below, mid)
    ensures ParentsOk(n0, Adopt(n2, i, Numbers(at, below)), next, mid)
  {
    var sub := Numbers(at, below);
    var n3 := Adopt(n2, i, sub);
    forall j | j in sub ensures j < |n2| && Orphan(n2, j) {
      assert SameParent(n1, n2, j) && Orphan(n1, j);
    }
    AdoptLinks(n2, i, sub);
    forall j: nat | j < next ensures SameParent(n0, n3, j) {
      assert SameParent(n0, n1, j) && SameParent(n1, n2, j);
      if j < |n2| {
        AdoptKeeps(n2, i, sub, j);
      }
    }
    forall j: nat | mid <= j ensures Orphan(n3, j) {
      assert Orphan(n2, j);
      if j < |n2| {
        AdoptKeeps(n2, i, sub, j);
      }
    }
  }

  // The inner call may start.
  function ServeReady(counts: seq<nat>, i: nat, next: nat, at: nat, n0: seq<Node>, n: seq<Node>): (below: nat)
    requires i < next <= at <= |counts| && Claimed(counts, i, next, at) <= |counts|
    requires ParentsOk(n0, n, next, at)
    ensures below == NextOf(counts, i, at) <= |counts| && Claimed(counts, at, below, below) <= |counts|
    ensures EndOf(counts, at, below, below) == MidOf(counts, i, next, at)
    ensures Linked(n) && Unplaced(n, below)
  {
    assert MidOf(counts, i, next, at) >= NextOf(counts, i, at);
    NextOf(counts, i, at)
  }

  // One turn of the loop changes nothing about where it ends.
  lemma NextTurn(counts: seq<nat>, i: nat, next: nat, at: nat, i': nat, mid: nat)
    requires i < next <= at <= |counts| && Claimed(counts, i, next, at) <= |counts|
    requires i' == i + 1 && mid == MidOf(counts, i, next, at)
    ensures i' <= next <= mid <= |counts| && Claimed(counts, i', next, mid) <= |counts|
    ensures EndOf(counts, i', next, mid) == EndOf(counts, i, next, at)
  {
  }

  lemma ServeChildren(counts: seq<nat>, plan: map<nat, nat>, i: nat, next: nat, at: nat, below: nat, mid: nat,
                      n0: seq<Node>, n1: seq<Node>, n2: seq<Node>)
    requires i < next <= at <= |counts| && Claimed(counts, i, next, at) <= |counts|
    requires below == NextOf(counts, i, at) && mid == MidOf(counts, i, next, at)
    requires Within(Plan(counts, i, next, at), plan)
    requires ChildrenOk(counts, plan, Plan(counts, i, next, at), n0, n1)
    requires ChildrenOk(counts, Plan(counts, at, below, below), map[], n1, n2)
    ensures Within(Plan(counts, i + 1, next, mid), plan)
    ensures ChildrenOk(counts, plan, Plan(counts, i + 1, next, mid), n0, Adopt(n2, i, Numbers(at, below)))
  {
    var todo, sub, rest := Plan(counts, i, next, at), Plan(counts, at, below, below), Plan(counts, i + 1, next, mid);
    PlanSplits(counts, i, next, at, below, mid);
    ChildrenStep(counts, plan, todo, sub, rest, i, at, below, n0, n1, n2);
  }

  // Splicing the first layers off both stacks.
  lemma SpliceBoth(counts: seq<nat>, extra: seq<nat>, cur: nat, next: nat, n: nat)
    requires cur <= next <= |counts| <= n
    ensures (counts[cur..] + extra)[..next - cur] == counts[cur..next]
    ensures (counts[cur..] + extra)[next - cur..] == counts[next..] + extra
    ensures Numbers(cur, n)[..next - cur] == Numbers(cur, next)
    ensures Numbers(cur, n)[next - cur..] == Numbers(next, n)
  {
  }

  class Builder {
    var layerStack: seq<nat>
    var indexStack: seq<nat>
    var nodes: seq<Node>

    // The stacks were read up to cur; extra follows the counts of the layers.
    ghost predicate ReadTo(counts: seq<nat>, extra: seq<nat>, cur: nat)
      reads this
    {
      && cur <= |counts| <= |nodes|
      && layerStack == Numbers(cur, |nodes|) && indexStack == counts[cur..] + extra
    }

    constructor (n: nat, counts: seq<nat>)
      ensures layerStack == Numbers(0, n) && indexStack == counts && |nodes| == n
      ensures forall k :: 0 <= k < n ==> nodes[k] == Node(None, None)
    {
      layerStack, indexStack := Numbers(0, n), counts;
      nodes := seq(n, _ => Node(None, None));
    }

    // The stacks were read up to cur; the call reads up to next and then serves the layers cur..next.
    method Consume(len: nat, ghost counts: seq<nat>, ghost extra: seq<nat>, ghost cur: nat, ghost next: nat)
      returns (layers: seq<nat>)
      requires ReadTo(counts, extra, cur) && next == cur + len <= |counts|
      requires Claimed(counts, cur, next, next) <= |counts|
      requires Linked(nodes) && Unplaced(nodes, next)
      modifies this
      ensures ReadTo(counts, extra, EndOf(counts, cur, next, next))
      ensures layers == Numbers(cur, next)
      ensures ChildrenOk(counts, Plan(counts, cur, next, next), map[], old(nodes), nodes)
      ensures ParentsOk(old(nodes), nodes, next, EndOf(counts, cur, next, next))
      decreases |indexStack|, 0
    {
      SpliceBoth(counts, extra, cur, next, |nodes|);
      var indices := indexStack[..len];
      indexStack := indexStack[len..];
      layers := layerStack[..len];
      layerStack := layerStack[len..];
      ghost var at, i: nat, plan, todo := next, cur, Plan(counts, cur, next, next), Plan(counts, cur, next, next);
      ghost var end := EndOf(counts, cur, next, next);
      for index := 0 to |indices|
        invariant cur + index == i <= next <= at <= |counts| && Claimed(counts, i, next, at) <= |counts|
        invariant EndOf(counts, i, next, at) == end
        invariant todo == Plan(counts, i, next, at) && Within(todo, plan)
        invariant ReadTo(counts, extra, at)
        invariant ChildrenOk(counts, plan, todo, old(nodes), nodes)
        invariant ParentsOk(old(nodes), nodes, next, at)
      {
        ghost var mid, i': nat := MidOf(counts, i, next, at), i + 1;
        Serve(layers[index], indices[index], counts, extra, i, next, at, i', mid, plan, old(nodes));
        todo := Plan(counts, i', next, mid);
        at, i := mid, i';
      }
      NothingPlanned(counts, next, at);
    }

    // One turn of the loop: the layer takes its children, which are served first.
    method Serve(parent: nat, count: nat, ghost counts: seq<nat>, ghost extra: seq<nat>, ghost i: nat, ghost next: nat,
                 ghost at: nat, ghost i': nat, ghost mid: nat, ghost plan: map<nat, nat>, ghost n0: seq<Node>)
      requires i < next <= at <= |counts| && Claimed(counts, i, next, at) <= |counts|
      requires i' == i + 1 && mid == MidOf(counts, i, next, at)
      requires parent == i && count == counts[i]
      requires ReadTo(counts, extra, at) && Within(Plan(counts, i, next, at), plan)
      requires ChildrenOk(counts, plan, Plan(counts, i, next, at), n0, nodes) && ParentsOk(n0, nodes, next, at)
      modifies this
      ensures i' <= next <= mid <= |counts| && Claimed(counts, i', next, mid) <= |counts|
      ensures EndOf(counts, i', next, mid) == EndOf(counts, i, next, at)
      ensures ReadTo(counts, extra, mid) && Within(Plan(counts, i', next, mid), plan)
      ensures ChildrenOk(counts, plan, Plan(counts, i', next, mid), n0, nodes) && ParentsOk(n0, nodes, next, mid)
      decreases |indexStack|, 1
    {
      ghost var below, before := ServeReady(counts, i, next, at, n0, nodes), nodes;
      NextTurn(counts, i, next, at, i', mid);
      var sub := Consume(count, counts, extra, at, below);
      ServeChildren(counts, plan, i, next, at, below, mid, n0, before, nodes);
      ParentsStep(n0, before, nodes, i, next, at, below, mid);
      nodes := Adopt(nodes, parent, sub);
    }

    /** treefy on any list of counts that claims no more layers than there are, followed by other counts: layer k
        has the children that ChildrenOf says, every child points back to its parent, and the layers that
        neither read reaches have no parent. */
    method Treefy(treeIndices: seq<nat>, ghost counts: seq<nat>, ghost extra: seq<nat>) returns (root: seq<nat>)
      requires Fitting(counts) && SecondFits(counts, extra)
      requires |nodes| == |counts| && treeIndices == counts + extra
      requires forall k :: 0 <= k < |nodes| ==> nodes[k] == Node(None, None)
      modifies this
      ensures root == [0] && |nodes| == |counts|
      ensures forall k: nat :: k < |counts| ==> nodes[k].children == ChildrenOf(counts, extra, k)
      ensures Linked(nodes) && nodes[0].parent == None && Unplaced(nodes, ReadUpTo(counts, extra))
    {
      ghost var start := nodes;
      FirstPlanIs(counts);
      layerStack, indexStack := Numbers(0, |nodes|), treeIndices;
      root := Consume(1, counts, extra, 0, 1);
      AfterRead(counts, FirstPlan(counts), start, nodes);
      assert SameParent(start, nodes, 0);
      var len := |nodes| - |layerStack|;
      if |indexStack| >= len {
        ReadAgain(len, counts, extra);
      }
    }

    // The second read, over all layers anew.
    method ReadAgain(len: nat, ghost counts: seq<nat>, ghost extra: seq<nat>)
      requires Fitting(counts) && SecondFits(counts, extra) && ReadsTwice(counts, extra)
      requires |nodes| == |counts| && len == FirstEnd(counts) && indexStack == RestOf(counts, extra)
      requires Linked(nodes) && Unplaced(nodes, len)
      modifies this
      ensures |nodes| == |counts| && nodes[0].parent == old(nodes)[0].parent
      ensures forall k: nat :: k < |counts| ==>
        nodes[k].children
        == Appended(old(nodes)[k].children, SecondPlan(counts, extra), SecondCounts(counts, extra), k)
      ensures Linked(nodes) && Unplaced(nodes, ReadUpTo(counts, extra))
    {
      ghost var before, second := nodes, SecondCounts(counts, extra);
      SecondPlanIs(counts, extra);
      SecondIsPrefix(counts, extra);
      layerStack := Numbers(0, |nodes|);
      var again := Consume(len, second, RestOf(counts, extra)[|second|..], 0, len);
      AfterRead(second, SecondPlan(counts, extra), before, nodes);
      assert SameParent(before, nodes, 0);
    }
  }

  // ---- What treefy builds

  // The counts claim no more layers than there are.
  predicate Fitting(counts: seq<nat>)
  {
    0 < |counts| && 1 + Sum(counts) <= |counts|
  }

  lemma FirstClaims(counts: seq<nat>)
    requires Fitting(counts)
    ensures Claimed(counts, 0, 1, 1) == 1 + Sum(counts)
  {
    SumSplit(counts, 0, 1, |counts|);
    assert counts[0..|counts|] == counts && counts[1..|counts|] == counts[1..];
  }

  // How far the first read goes: the layers from here on are not in the tree it makes.
  function FirstEnd(counts: seq<nat>): (e: nat)
    requires Fitting(counts)
    ensures 0 < e <= |counts| && Claimed(counts, 0, 1, 1) <= |counts| && e == EndOf(counts, 0, 1, 1)
    ensures e + Sum(counts[e..]) == 1 + Sum(counts)
  {
    FirstClaims(counts);
    EndOf(counts, 0, 1, 1)
  }

  // The counts that the first read leaves.
  function RestOf(counts: seq<nat>, extra: seq<nat>): seq<nat>
    requires Fitting(counts)
  {
    counts[FirstEnd(counts)..] + extra
  }

  // The second read happens when that many counts are left, one for each layer of the first.
  predicate ReadsTwice(counts: seq<nat>, extra: seq<nat>)
    requires Fitting(counts)
  {
    |RestOf(counts, extra)| >= FirstEnd(counts)
  }

  // The counts of the second read: one for each layer, if there are enough left.
  function SecondCounts(counts: seq<nat>, extra: seq<nat>): (second: seq<nat>)
    requires Fitting(counts)
    ensures |second| <= |counts|
  {
    var rest := RestOf(counts, extra);
    rest[..Min(|counts|, |rest|)]
  }

  // The second read, if it happens, claims no more layers than it has counts for.
  predicate SecondFits(counts: seq<nat>, extra: seq<nat>)
    requires Fitting(counts)
  {
    ReadsTwice(counts, extra) ==>
      FirstEnd(counts) + Sum(SecondCounts(counts, extra)) <= |SecondCounts(counts, extra)|
  }

  lemma SecondClaims(counts: seq<nat>, extra: seq<nat>)
    requires Fitting(counts) && SecondFits(counts, extra) && ReadsTwice(counts, extra)
    ensures var second, e := SecondCounts(counts, extra), FirstEnd(counts);
      e <= |second| && Claimed(second, 0, e, e) <= |second|
  {
    var second, e := SecondCounts(counts, extra), FirstEnd(counts);
    SumSplit(second, 0, e, |second|);
    assert second[0..|second|] == second && second[e..|second|] == second[e..];
  }

  // How far the second read goes, or the first, if it is the only one.
  function ReadUpTo(counts: seq<nat>, extra: seq<nat>): (e: nat)
    requires Fitting(counts) && SecondFits(counts, extra)
    ensures FirstEnd(counts) <= e <= |counts|
  {
    var e := FirstEnd(counts);
    if !ReadsTwice(counts, extra) then e
    else
      SecondClaims(counts, extra);
      EndOf(SecondCounts(counts, extra), 0, e, e)
  }

  // The plan of the first read, and of the second.
  function FirstPlan(counts: seq<nat>): map<nat, nat>
    requires Fitting(counts)
  {
    FirstClaims(counts);
    Plan(counts, 0, 1, 1)
  }

  function SecondPlan(counts: seq<nat>, extra: seq<nat>): map<nat, nat>
    requires Fitting(counts) && SecondFits(counts, extra) && ReadsTwice(counts, extra)
  {
    SecondClaims(counts, extra);
    Plan(SecondCounts(counts, extra), 0, FirstEnd(counts), FirstEnd(counts))
  }

  // The children that a read by a plan appends to those that a layer has.
  function Appended(before: Option<seq<nat>>, plan: map<nat, nat>, counts: seq<nat>, k: nat): Option<seq<nat>>
  {
    if k < |counts| && k in plan then
      Some((if before.Some? then before.value else []) + Numbers(plan[k], plan[k] + counts[k]))
    else before
  }

  // The children of layer k in the end; those of the second read come after those of the first.
  function ChildrenOf(counts: seq<nat>, extra: seq<nat>, k: nat): Option<seq<nat>>
    requires Fitting(counts) && SecondFits(counts, extra)
  {
    var first := Appended(None, FirstPlan(counts), counts, k);
    if ReadsTwice(counts, extra) then Appended(first, SecondPlan(counts, extra), SecondCounts(counts, extra), k)
    else first
  }

  // What a call of consume leaves, layer by layer.
  lemma AfterRead(counts: seq<nat>, plan: map<nat, nat>, n0: seq<Node>, n: seq<Node>)
    requires ChildrenOk(counts, plan, map[], n0, n)
    ensures forall k: nat :: k < |n| ==> n[k].children == Appended(n0[k].children, plan, counts, k)
  {
    forall k: nat | k < |n| ensures n[k].children == Appended(n0[k].children, plan, counts, k) {
      assert HasChildren(counts, plan, map[], n0, n, k);
    }
  }

  lemma FirstPlanIs(counts: seq<nat>)
    requires Fitting(counts)
    ensures Claimed(counts, 0, 1, 1) <= |counts| && FirstPlan(counts) == Plan(counts, 0, 1, 1)
  {
    FirstClaims(counts);
  }

  lemma SecondPlanIs(counts: seq<nat>, extra: seq<nat>)
    requires Fitting(counts) && SecondFits(counts, extra) && ReadsTwice(counts, extra)
    ensures var second, e := SecondCounts(counts, extra), FirstEnd(counts);
      && e <= |second| && Claimed(second, 0, e, e) <= |second|
      && SecondPlan(counts, extra) == Plan(second, 0, e, e) && ReadUpTo(counts, extra) == EndOf(second, 0, e, e)
  {
    SecondClaims(counts, extra);
  }

  lemma SecondIsPrefix(counts: seq<nat>, extra: seq<nat>)
    requires Fitting(counts)
    ensures var second, rest := SecondCounts(counts, extra), RestOf(counts, extra);
      |second| <= |rest| && rest == second[0..] + rest[|second|..]
  {
  }

  function Zeros(n: nat): (s: seq<nat>)
    ensures |s| == n && forall i :: 0 <= i < n ==> s[i] == 0
  {
    seq(n, _ => 0)
  }

  // The children of layer k in the tree rebuilt from a valid list.
  function Block(counts: seq<nat>, k: nat): seq<nat>
    requires ValidCounts(counts) && k < |counts|
  {
    Numbers(RebuiltStart(counts, k), RebuiltStart(counts, k) + counts[k])
  }

  lemma ZeroClaims(n: nat)
    ensures Claimed(Zeros(n), 0, n, n) <= n
    ensures EndOf(Zeros(n), 0, n, n) == n && Sum(Zeros(n)) == 0
  {
    SumZero(Zeros(n), 0, n);
    assert Zeros(n)[0..n] == Zeros(n);
    assert Zeros(n)[n..] == [];
    ZeroBlock(Zeros(n), 0, n, n);
  }

  lemma ValidIsFitting(counts: seq<nat>, zeros: nat)
    requires ValidCounts(counts)
    ensures Fitting(counts) && FirstEnd(counts) == |counts| && RestOf(counts, Zeros(zeros)) == Zeros(zeros)
    ensures SecondFits(counts, Zeros(zeros))
  {
    RootClaims(counts);
    assert counts[..|counts|] == counts;
    UsesAllCounts(counts);
    if zeros >= |counts| {
      assert Zeros(zeros)[..|counts|] == Zeros(|counts|);
      ZeroClaims(|counts|);
    }
  }

  lemma RebuiltIsPlanned(counts: seq<nat>, k: nat)
    requires ValidCounts(counts) && k < |counts|
    ensures |counts| > 0 && Claimed(counts, 0, 1, 1) <= |counts|
    ensures k in Plan(counts, 0, 1, 1) && Plan(counts, 0, 1, 1)[k] == RebuiltStart(counts, k)
  {
    UsesAllCounts(counts);
    PlanIs(counts, 0, 1, 1, k);
  }

  lemma FirstGivesBlock(counts: seq<nat>, k: nat)
    requires ValidCounts(counts) && k < |counts|
    ensures Fitting(counts) && Appended(None, FirstPlan(counts), counts, k) == Some(Block(counts, k))
  {
    ValidIsFitting(counts, 0);
    FirstPlanIs(counts);
    RebuiltIsPlanned(counts, k);
    assert [] + Block(counts, k) == Block(counts, k);
  }

  lemma ZerosAppendNothing(n: nat, before: seq<nat>, k: nat)
    requires k < n
    ensures Claimed(Zeros(n), 0, n, n) <= n
    ensures Appended(Some(before), Plan(Zeros(n), 0, n, n), Zeros(n), k) == Some(before)
  {
    ZeroClaims(n);
    var plan := Plan(Zeros(n), 0, n, n);
    PlanIs(Zeros(n), 0, n, n, k);
    assert before + Numbers(plan[k], plan[k] + 0) == before;
  }

  /** On the counts of a first pass, with any number of zeros from a second pass behind them, layer k gets its
      counts[k] children from RebuiltStart(counts, k) on; the zeros make no difference. */
  lemma ZerosChangeNothing(counts: seq<nat>, zeros: nat, k: nat)
    requires ValidCounts(counts) && k < |counts|
    ensures Fitting(counts) && SecondFits(counts, Zeros(zeros))
    ensures ChildrenOf(counts, Zeros(zeros), k) == Some(Block(counts, k))
    ensures ReadUpTo(counts, Zeros(zeros)) == |counts|
  {
    ValidIsFitting(counts, zeros);
    FirstGivesBlock(counts, k);
    if ReadsTwice(counts, Zeros(zeros)) {
      assert SecondCounts(counts, Zeros(zeros)) == Zeros(|counts|);
      SecondPlanIs(counts, Zeros(zeros));
      ZerosAppendNothing(|counts|, Block(counts, k), k);
    }
  }
}
