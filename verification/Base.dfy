// Vocabulary shared by the whole project.
module Base {

  datatype Option<+T> = None | Some(value: T)

  type byte = b: int | 0 <= b < 0x100

  type Bytes = seq<byte>

  const TWO_32 := 0x1_0000_0000
  const TWO_63 := 0x8000_0000_0000_0000
  const TWO_64 := 0x1_0000_0000_0000_0000

  function Max(a: int, b: int): int { if a < b then b else a }

  function Min(a: int, b: int): int { if a < b then a else b }

  /** Sum of a list of counts. */
  function Sum(s: seq<nat>): nat
  {
    if s == [] then 0 else Sum(s[..|s| - 1]) + s[|s| - 1]
  }

  lemma {:induction false} SumAppend(a: seq<nat>, b: seq<nat>)
    ensures Sum(a + b) == Sum(a) + Sum(b)
  {
    if b == [] {
      assert a + b == a;
    } else {
      SumAppend(a, b[..|b| - 1]);
      assert (a + b)[..|a + b| - 1] == a + b[..|b| - 1];
    }
  }

  lemma SumPrefixStep(s: seq<nat>, i: nat)
    requires i < |s|
    ensures Sum(s[..i + 1]) == Sum(s[..i]) + s[i]
  {
    assert s[..i + 1][..i] == s[..i];
  }

  lemma {:induction false} SumPrefixMonotone(s: seq<nat>, i: nat, j: nat)
    requires i <= j <= |s|
    ensures Sum(s[..i]) <= Sum(s[..j])
    decreases j
  {
    if i < j {
      SumPrefixMonotone(s, i, j - 1);
      SumPrefixStep(s, j - 1);
    }
  }

  /** Concatenation of a list of lists. */
  function Flatten<T>(ss: seq<seq<T>>): seq<T>
  {
    if ss == [] then [] else Flatten(ss[..|ss| - 1]) + ss[|ss| - 1]
  }

  lemma FlattenSnoc<T>(ss: seq<seq<T>>, s: seq<T>)
    ensures Flatten(ss + [s]) == Flatten(ss) + s
  {
    assert (ss + [s])[..|ss|] == ss;
  }

  lemma {:induction false} FlattenAppend<T>(a: seq<seq<T>>, b: seq<seq<T>>)
    ensures Flatten(a + b) == Flatten(a) + Flatten(b)
  {
    if b == [] {
      assert a + b == a;
    } else {
      FlattenAppend(a, b[..|b| - 1]);
      assert (a + b)[..|a + b| - 1] == a + b[..|b| - 1];
    }
  }

  /** The least key of a non-empty ordered map. */
  function MinKey<V>(m: map<nat, V>): (k: nat)
    requires m != map[]
    ensures k in m && forall j :: j in m ==> k <= j
  {
    HasMin(m.Keys);
    var k :| k in m && forall j :: j in m ==> k <= j;
    k
  }

  lemma HasMin(s: set<nat>)
    requires s != {}
    ensures exists k :: k in s && forall j :: j in s ==> k <= j
  {
    var x :| x in s;
    if s == {x} {
      assert forall j :: j in s ==> x <= j;
    } else {
      var rest := s - {x};
      assert s == rest + {x};
      HasMin(rest);
      var k :| k in rest && forall j :: j in rest ==> k <= j;
      var least := Min(k, x);
      assert least in s && forall j :: j in s ==> least <= j;
    }
  }

  // A name for n - 1: recursive calls on it are matched as terms, where the prover would have to solve n - 1 == m.
  function OneLess(n: nat): (left: nat)
    requires n > 0
    ensures left == n - 1
  {
    n - 1
  }
}
