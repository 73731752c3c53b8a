// The frame ranges a user types in the output dialog (src/view/display/output-dialog.ts).
module RangeMerge {
  import opened Base

  const MAX_SAFE_INTEGER: nat := 0x1F_FFFF_FFFF_FFFF

  // One comma-separated item: "7", "3-9", "-9" or "3-".
  datatype Item = Single(n: nat) | Dashed(begin: Option<nat>, end: Option<nat>)

  datatype Interval = Interval(lo: nat, hi: nat)

  function OrElse(o: Option<nat>, default: nat): nat
  {
    if o.Some? then o.value else default
  }

  function ToInterval(item: Item): Interval
  {
    match item
    case Single(n) => Interval(n, n)
    case Dashed(b, e) =>
      var begin, end := OrElse(b, 0), OrElse(e, MAX_SAFE_INTEGER);
      if begin < end then Interval(begin, end) else Interval(end, begin)
  }

  function ToIntervals(items: seq<Item>): seq<Interval>
  {
    seq(|items|, i requires 0 <= i < |items| => ToInterval(items[i]))
  }

  // What a user means by an item: either order of the two ends, a missing end is open.
  predicate Selects(item: Item, x: nat)
  {
    match item
    case Single(n) => x == n
    case Dashed(b, e) =>
      var begin, end := OrElse(b, 0), OrElse(e, MAX_SAFE_INTEGER);
      begin <= x <= end || end <= x <= begin
  }

  // One item selects both x and y.
  ghost predicate SelectedTogether(items: seq<Item>, x: nat, y: nat)
  {
    exists i :: 0 <= i < |items| && Selects(items[i], x) && Selects(items[i], y)
  }

  // One interval holds both x and y.
  ghost predicate Joined(ranges: seq<Interval>, x: nat, y: nat)
  {
    exists i :: 0 <= i < |ranges| && Both(ranges[i], x, y)
  }

  predicate Both(r: Interval, x: nat, y: nat)
  {
    r.lo <= x <= r.hi && r.lo <= y <= r.hi
  }

  predicate SortedByStart(s: seq<Interval>)
  {
    forall i, j :: 0 <= i < j < |s| ==> s[i].lo <= s[j].lo
  }

  // Array.prototype.sort with the comparator on the first component.
  function SortByStart(s: seq<Interval>): (r: seq<Interval>)
    ensures SortedByStart(r) && multiset(r) == multiset(s)
  {
    if s == [] then [] else
      assert s == s[..|s| - 1] + [s[|s| - 1]];
      Insert(SortByStart(s[..|s| - 1]), s[|s| - 1])
  }

  function Insert(s: seq<Interval>, v: Interval): (r: seq<Interval>)
    requires SortedByStart(s)
    ensures SortedByStart(r) && multiset(r) == multiset(s) + multiset{v}
  {
    if s == [] || s[|s| - 1].lo <= v.lo then s + [v] else
      var init, last := s[..|s| - 1], s[|s| - 1];
      assert s == init + [last];
      var r := Insert(init, v);
      BelowLast(r, init, v, last);
      SortedSnoc(r, last);
      r + [last]
  }

  lemma SortedSnoc(s: seq<Interval>, last: Interval)
    requires SortedByStart(s) && forall i :: 0 <= i < |s| ==> s[i].lo <= last.lo
    ensures SortedByStart(s + [last])
  {
  }

  lemma BelowLast(r: seq<Interval>, init: seq<Interval>, v: Interval, last: Interval)
    requires multiset(r) == multiset(init) + multiset{v}
    requires v.lo <= last.lo && forall i :: 0 <= i < |init| ==> init[i].lo <= last.lo
    ensures forall i :: 0 <= i < |r| ==> r[i].lo <= last.lo
  {
    forall i | 0 <= i < |r| ensures r[i].lo <= last.lo {
      assert r[i] in multiset(r);
      assert r[i] in multiset(init) || r[i] == v;
    }
  }

  lemma SortKeepsJoined(s: seq<Interval>, x: nat, y: nat)
    ensures Joined(SortByStart(s), x, y) <==> Joined(s, x, y)
  {
    var r := SortByStart(s);
    forall v: Interval ensures v in r <==> v in s {
      assert v in multiset(r) <==> v in multiset(s);
    }
    if Joined(s, x, y) {
      var i :| 0 <= i < |s| && Both(s[i], x, y);
      assert s[i] in r;
    }
    if Joined(r, x, y) {
      var i :| 0 <= i < |r| && Both(r[i], x, y);
      assert r[i] in s;
    }
  }

  // Strictly increasing, each start beyond the end before it.
  predicate Separated(s: seq<Interval>)
  {
    && (forall i :: 0 <= i < |s| ==> s[i].lo <= s[i].hi)
    && (forall i :: 0 < i < |s| ==> s[i - 1].hi < s[i].lo)
  }

  /** The sort-and-merge loop. The result is pinned down: it covers the same numbers, and two
      neighbouring numbers share an output range exactly when one item selects both. */
  method Merge(items: seq<Item>) returns (merged: seq<Interval>)
    ensures Separated(merged)
    ensures forall x: nat, y: nat :: x <= y <= x + 1 ==> (Joined(merged, x, y) <==> SelectedTogether(items, x, y))
  {
    var ranges := SortByStart(ToIntervals(items));
    merged := [];
    RangesInOrder(items);
    NoneMerged(ranges);
    for k := 0 to |ranges|
      invariant Merged(ranges, k, merged)
    {
      var before := merged;
      if merged != [] && merged[|merged| - 1].hi >= ranges[k].lo {
        var last := merged[|merged| - 1];
        merged := merged[|merged| - 1 := Interval(last.lo, Max(last.hi, ranges[k].hi))];
      } else {
        merged := merged + [ranges[k]];
      }
      OneMoreMerged(ranges, k, before, merged);
    }
    AllMerged(items, ranges, merged);
  }

  // Each range ends where it starts or later, and they are sorted.
  predicate InOrder(ranges: seq<Interval>)
  {
    SortedByStart(ranges) && forall i :: 0 <= i < |ranges| ==> ranges[i].lo <= ranges[i].hi
  }

  lemma RangesInOrder(items: seq<Item>)
    ensures InOrder(SortByStart(ToIntervals(items)))
  {
    SortKeepsShape(ToIntervals(items));
  }

  lemma NoneMerged(ranges: seq<Interval>)
    ensures Merged(ranges, 0, [])
  {
  }

  lemma AllMerged(items: seq<Item>, ranges: seq<Interval>, merged: seq<Interval>)
    requires ranges == SortByStart(ToIntervals(items)) && Merged(ranges, |ranges|, merged)
    ensures Separated(merged)
    ensures forall x: nat, y: nat :: x <= y <= x + 1 ==> (Joined(merged, x, y) <==> SelectedTogether(items, x, y))
  {
    assert ranges[..|ranges|] == ranges;
    JoinsAreSelected(items, merged);
  }

  // The first k ranges are merged.
  ghost predicate Merged(ranges: seq<Interval>, k: nat, merged: seq<Interval>)
  {
    && k <= |ranges| && Separated(merged)
    && (k == 0 <==> merged == [])
    && (k > 0 ==> merged[|merged| - 1].lo <= ranges[k - 1].lo)
    && SameJoins(merged, ranges[..k])
  }

  // r is merged into what comes before it, or follows that.
  predicate Extends(before: seq<Interval>, r: Interval, after: seq<Interval>)
  {
    after ==
      if before != [] && before[|before| - 1].hi >= r.lo then
        var last := before[|before| - 1];
        before[|before| - 1 := Interval(last.lo, Max(last.hi, r.hi))]
      else before + [r]
  }

  lemma OneMoreMerged(ranges: seq<Interval>, k: nat, before: seq<Interval>, after: seq<Interval>)
    requires InOrder(ranges) && k < |ranges| && Merged(ranges, k, before) && Extends(before, ranges[k], after)
    ensures Merged(ranges, k + 1, after)
  {
    if k > 0 { assert ranges[k - 1].lo <= ranges[k].lo; }
    assert ranges[..k + 1] == ranges[..k] + [ranges[k]];
    JoinsOneMore(before, ranges[..k], ranges[k], after);
    StaysSeparated(before, ranges[k], after);
  }

  lemma StaysSeparated(before: seq<Interval>, r: Interval, after: seq<Interval>)
    requires Separated(before) && r.lo <= r.hi && Extends(before, r, after)
    requires before != [] ==> before[|before| - 1].lo <= r.lo
    ensures Separated(after) && after != [] && after[|after| - 1].lo <= r.lo
  {
  }

  // Both cover the same numbers and join the same neighbours.
  ghost predicate SameJoins(a: seq<Interval>, b: seq<Interval>)
  {
    forall x: nat, y: nat :: x <= y <= x + 1 ==> (Joined(a, x, y) <==> Joined(b, x, y))
  }

  lemma JoinsOneMore(before: seq<Interval>, ranges: seq<Interval>, r: Interval, after: seq<Interval>)
    requires SameJoins(before, ranges) && Separated(before) && r.lo <= r.hi
    requires before != [] ==> before[|before| - 1].lo <= r.lo
    requires Extends(before, r, after)
    ensures SameJoins(after, ranges + [r])
  {
    forall x: nat, y: nat | x <= y <= x + 1 ensures Joined(after, x, y) <==> Joined(ranges + [r], x, y) {
      assert Joined(before, x, y) <==> Joined(ranges, x, y);
      JoinedSnoc(ranges, r, x, y);
      MergeStep(before, r, after, x, y);
    }
  }

  lemma JoinsAreSelected(items: seq<Item>, merged: seq<Interval>)
    requires SameJoins(merged, SortByStart(ToIntervals(items)))
    ensures forall x: nat, y: nat :: x <= y <= x + 1 ==> (Joined(merged, x, y) <==> SelectedTogether(items, x, y))
  {
    forall x: nat, y: nat | x <= y <= x + 1
      ensures Joined(merged, x, y) <==> SelectedTogether(items, x, y)
    {
      assert Joined(merged, x, y) <==> Joined(SortByStart(ToIntervals(items)), x, y);
      SortKeepsJoined(ToIntervals(items), x, y);
      ItemsJoined(items, x, y);
    }
  }

  lemma SortKeepsShape(s: seq<Interval>)
    requires forall r :: r in s ==> r.lo <= r.hi
    ensures forall i :: 0 <= i < |SortByStart(s)| ==> SortByStart(s)[i].lo <= SortByStart(s)[i].hi
  {
    forall i | 0 <= i < |SortByStart(s)| ensures SortByStart(s)[i] in s {
      assert SortByStart(s)[i] in multiset(SortByStart(s));
    }
  }

  lemma JoinedSnoc(s: seq<Interval>, r: Interval, x: nat, y: nat)
    ensures Joined(s + [r], x, y) <==> Joined(s, x, y) || Both(r, x, y)
  {
    if Joined(s, x, y) {
      var i :| 0 <= i < |s| && Both(s[i], x, y);
      assert Both((s + [r])[i], x, y);
    }
    if Both(r, x, y) {
      assert Both((s + [r])[|s|], x, y);
    }
  }

  lemma MergeStep(before: seq<Interval>, r: Interval, after: seq<Interval>, x: nat, y: nat)
    requires Separated(before) && r.lo <= r.hi && x <= y <= x + 1
    requires before != [] ==> before[|before| - 1].lo <= r.lo
    requires Extends(before, r, after)
    ensures Joined(after, x, y) <==> Joined(before, x, y) || Both(r, x, y)
  {
    if before == [] || before[|before| - 1].hi < r.lo {
      JoinedSnoc(before, r, x, y);
    } else {
      var init, last := before[..|before| - 1], before[|before| - 1];
      var joined := Interval(last.lo, Max(last.hi, r.hi));
      assert before == init + [last] && after == init + [joined];
      JoinedSnoc(init, last, x, y);
      JoinedSnoc(init, joined, x, y);
    }
  }

  lemma ItemsJoined(items: seq<Item>, x: nat, y: nat)
    requires x <= y <= x + 1
    ensures Joined(ToIntervals(items), x, y) <==> SelectedTogether(items, x, y)
  {
    var s := ToIntervals(items);
    forall i | 0 <= i < |items| ensures Both(s[i], x, y) <==> Selects(items[i], x) && Selects(items[i], y) {
    }
    if SelectedTogether(items, x, y) {
      var i :| 0 <= i < |items| && Selects(items[i], x) && Selects(items[i], y);
      assert Both(s[i], x, y);
    }
  }
}
