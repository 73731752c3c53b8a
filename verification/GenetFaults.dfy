// Genet files that are cut, or name what is not there.
module GenetFaults {
  import opened Base
  import opened Frames
  import opened Encoding
  import opened GenetFormat
  import opened GenetFile
  import R = GenetReader
  import W = GenetWriter

  lemma CutBlobIsBad(b: Bytes, n: nat)
    requires |b| < TWO_64 && n < |Blob(b)|
    ensures ReadBlob(Blob(b)[..n]).Bad?
  {
    if n >= 8 {
      assert Blob(b)[..n] == U64(|b|) + b[..n - 8];
      U64RoundTrip(|b|, b[..n - 8]);
    }
  }

  // ---- Opening

  /** A file that ends before its header does is refused. */
  lemma CutHeaderIsRefused(h: Header, n: nat)
    requires |HeaderBytes(h)| < TWO_64 && n < |Blob(HeaderBytes(h))|
    ensures R.OpenSpec(Blob(HeaderBytes(h))[..n]) == R.Err
  {
    CutBlobIsBad(HeaderBytes(h), n);
  }

  /** A header opens, unless a class names a token that is not there: that panics. */
  lemma HeaderOpensOrPanics(h: Header, rest: Bytes)
    requires HeaderFits(h) && |HeaderBytes(h)| < TWO_64
    ensures var o := R.OpenSpec(Blob(HeaderBytes(h)) + rest);
      if forall i :: 0 <= i < |h.attrs| ==> h.attrs[i].id < |h.tokens| && h.attrs[i].typ < |h.tokens|
      then o.Ok? && o.value.tables.tokens == h.tokens && o.value.entries == h.entries && o.value.input == rest
      else o == R.Panic
  {
    var b := HeaderBytes(h);
    BlobRoundTrip(b, rest);
    assert b + [] == b;
    HeaderRoundTrip(h, []);
  }

  // ---- Reading

  // The frame record fits, and tells how much data follows it.
  predicate Whole(e: Entry)
  {
    FrameFits(e.frame) && |FrameBytes(e.frame)| < TWO_64 && e.frame.len == |e.data|
  }

  /** An entry that names a token or a class that is not there panics. */
  lemma EntryPanics(t: R.Tables, e: Entry, rest: Bytes)
    requires Whole(e)
    requires e.frame.id >= |t.tokens| || exists i :: 0 <= i < |e.frame.attrs| && e.frame.attrs[i].index >= |t.attrs|
    ensures R.ReadEntry(t, W.EntryBytes(e) + rest) == (R.Panic, rest)
  {
    BlobThenData(FrameBytes(e.frame), e.data, rest);
    FrameIsRead(e.frame);
    TakeExactly(e.data, rest);
    assert Entry(e.frame, e.data) == e;
  }

  /** An entry that is cut anywhere is an error. */
  lemma CutEntryIsError(t: R.Tables, e: Entry, n: nat)
    requires Whole(e) && n < |W.EntryBytes(e)|
    ensures R.ReadEntry(t, W.EntryBytes(e)[..n]).0 == R.Err
  {
    var blob := Blob(FrameBytes(e.frame));
    if n < |blob| {
      assert W.EntryBytes(e)[..n] == blob[..n];
      CutBlobIsBad(FrameBytes(e.frame), n);
    } else {
      var some := e.data[..n - |blob|];
      assert W.EntryBytes(e)[..n] == blob + some;
      BlobRoundTrip(FrameBytes(e.frame), some);
      FrameIsRead(e.frame);
    }
  }

  ghost predicate AllWhole(t: R.Tables, entries: seq<Entry>)
  {
    forall i :: 0 <= i < |entries| ==> Whole(entries[i]) && R.EntryInRange(t, entries[i])
  }

  /** Entries that are cut anywhere give an error and no entry at all, and the reader still expects as many. */
  lemma CutFileIsError(t: R.Tables, entries: seq<Entry>, n: nat)
    requires AllWhole(t, entries) && n < |Items(W.EntryBytes, entries)|
    ensures var (s, o) := R.ReadSpec(R.State(t, Items(W.EntryBytes, entries)[..n], |entries|));
      o == R.Err && s.entries == |entries|
  {
    CutEntriesFail(t, entries, |entries|, n);
  }

  lemma {:induction false} CutEntriesFail(t: R.Tables, entries: seq<Entry>, k: nat, n: nat)
    requires AllWhole(t, entries) && n < |Items(W.EntryBytes, entries)| && k == |entries|
    ensures R.ReadEntries(t, Items(W.EntryBytes, entries)[..n], k).0 == R.Err
    decreases k
  {
    var first, others := W.EntryBytes(entries[0]), Items(W.EntryBytes, entries[1..]);
    if n < |first| {
      assert (first + others)[..n] == first[..n];
      CutEntryIsError(t, entries[0], n);
    } else {
      var left, m := OneLess(k), n - |first|;
      assert (first + others)[..n] == first + others[..m];
      EntryIsRead(t, entries[0], others[..m]);
      CutEntriesFail(t, entries[1..], left, m);
      FailsLater(t, first + others[..m], k, left, others[..m]);
    }
  }

  lemma FailsLater(t: R.Tables, b: Bytes, n: nat, left: nat, rest: Bytes)
    requires n > 0 && left == OneLess(n) && R.ReadEntry(t, b).0.Ok? && R.ReadEntry(t, b).1 == rest
    requires R.ReadEntries(t, rest, left).0 == R.Err
    ensures R.ReadEntries(t, b, n).0 == R.Err
  {
  }

  // ---- Tags

  /** A value begins with its number among the variants, in four bytes. */
  lemma TagsOfValues(x: bool, i: int, u: nat, text: string, b: Bytes)
    ensures ValueBytes(NilValue) == [0, 0, 0, 0] && ValueBytes(BoolValue(x))[..4] == [1, 0, 0, 0]
    ensures ValueBytes(Int64Value(i))[..4] == [2, 0, 0, 0] && ValueBytes(UInt64Value(u))[..4] == [3, 0, 0, 0]
    ensures ValueBytes(Float64Value(u))[..4] == [4, 0, 0, 0] && ValueBytes(StringValue(text))[..4] == [5, 0, 0, 0]
    ensures ValueBytes(BufferValue(b))[..4] == [6, 0, 0, 0]
  {
    TagIs(NilValue);
    TagIs(BoolValue(x));
    TagIs(Int64Value(i));
    TagIs(UInt64Value(u));
    TagIs(Float64Value(u));
    TagIs(StringValue(text));
    TagIs(BufferValue(b));
  }

  lemma TagIs(v: Value)
    ensures ValueBytes(v)[..4] == [ValueTag(v), 0, 0, 0]
  {
    SmallTag(ValueTag(v));
    assert |Tag(ValueTag(v))| == 4;
  }

  lemma SmallTag(n: nat)
    requires n < 7
    ensures Tag(n) == [n, 0, 0, 0]
  {
    assert Little(0, 1) == [0] + Little(0, 0) && Little(0, 2) == [0] + Little(0, 1) && Little(0, 3) == [0] + Little(0, 2);
    assert Little(n, 4) == [n] + Little(0, 3);
  }
}
