// The bucketed frame store (genet-kernel/src/array_vec.rs).
module ArrayVec {
  import opened Base

  const BLOCK_SIZE: nat := 1024

  class ArrayVec<T(0)> {
    ghost var Contents: seq<T>   // the plain sequence that the buckets stand for
    ghost var Repr: set<object>  // this object and its buckets

    var buckets: seq<array<T>>
    var len: nat

    // As many buckets as len needs, all of them distinct blocks of BLOCK_SIZE slots.
    ghost predicate Valid()
      reads this, Repr
      ensures Valid() ==> this in Repr
    {
      && this in Repr
      && |Contents| == len
      && |buckets| == (len + BLOCK_SIZE - 1) / BLOCK_SIZE
      && (forall i :: 0 <= i < |buckets| ==> buckets[i] in Repr && buckets[i].Length == BLOCK_SIZE)
      && (forall i, j :: 0 <= i < j < |buckets| ==> buckets[i] != buckets[j])
      && (forall i :: 0 <= i < len ==> buckets[i / BLOCK_SIZE][i % BLOCK_SIZE] == Contents[i])
    }

    constructor ()
      ensures Valid() && Contents == [] && fresh(Repr)
    {
      buckets, len := [], 0;
      Contents, Repr := [], {this};
    }

    method Get(index: nat) returns (r: Option<T>)
      requires Valid()
      ensures r == if index < |Contents| then Some(Contents[index]) else None
    {
      if index < len {
        var bucket, offset := index / BLOCK_SIZE, index % BLOCK_SIZE;
        r := Some(buckets[bucket][offset]);
      } else {
        r := None;
      }
    }

    method Push(val: T)
      requires Valid()
      modifies Repr
      ensures Valid() && fresh(Repr - old(Repr))
      ensures Contents == old(Contents) + [val]
    {
      var bucket, offset := len / BLOCK_SIZE, len % BLOCK_SIZE;
      if |buckets| <= bucket {
        var data := new T[BLOCK_SIZE];
        buckets := buckets + [data];
        Repr := Repr + {data};
      }
      buckets[bucket][offset] := val;
      Contents := Contents + [val];
      len := len + 1;
      assert forall i :: 0 <= i < len - 1 && i / BLOCK_SIZE == bucket ==> i % BLOCK_SIZE != offset;
    }

    // iter().skip(from).take(count), collected.
    method Range(from: nat, count: nat) returns (r: seq<T>)
      requires Valid()
      ensures r == Contents[Min(from, |Contents|)..Min(from + count, |Contents|)]
    {
      r := [];
      var offset := Min(from, len);
      while |r| < count
        invariant offset <= len && offset == Min(from, len) + |r|
        invariant r == Contents[Min(from, len)..offset]
        invariant |r| <= count
        decreases count - |r|
      {
        var val := Get(offset);
        if val.None? {
          break;
        }
        r := r + [val.value];
        offset := offset + 1;
      }
    }
  }
}
