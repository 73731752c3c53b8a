// A genet file read back: what the writer wrote is what the reader returns.
module GenetFile {
  import opened Base
  import opened Frames
  import opened Encoding
  import opened GenetFormat
  import V = Variants
  import W = GenetWriter
  import R = GenetReader

  // ---- What a file keeps of a frame

  predicate Readable(attrs: seq<Attr>)
  {
    forall i :: 0 <= i < |attrs| ==> attrs[i].isValue ==> attrs[i].value.Some?
  }

  // The value attributes, with their values as a file can hold them.
  function Kept(attrs: seq<Attr>): seq<Attr>
  {
    if attrs == [] then []
    else
      var a := attrs[|attrs| - 1];
      Kept(attrs[..|attrs| - 1])
      + if a.isValue && a.value.Some? then [Attr(a.id, a.typ, true, Some(ToVariant(ToValue(a.value.value))))] else []
  }

  function Record(l: Layer): Layer
  {
    Layer(l.id, [], Kept(l.attrs), [], l.data)
  }

  predicate IsWritten(stack: seq<Layer>)
  {
    stack != [] && Readable(stack[0].attrs)
  }

  // The frames of the writes that succeed and have a layer.
  function Written(stacks: seq<seq<Layer>>): seq<Layer>
  {
    if stacks == [] then []
    else
      var stack := stacks[|stacks| - 1];
      Written(stacks[..|stacks| - 1]) + if IsWritten(stack) then [Record(stack[0])] else []
  }

  // The writer after one write for each stack.
  function WriteAll(stacks: seq<seq<Layer>>): W.State
  {
    if stacks == [] then W.NEW
    else W.WriteSpec(WriteAll(stacks[..|stacks| - 1]), stacks[|stacks| - 1]).0
  }

  // The numbers in the attributes fit their types.
  predicate AttrsFit(attrs: seq<Attr>)
  {
    forall i :: 0 <= i < |attrs| ==> attrs[i].value.Some? ==> V.InRange(attrs[i].value.value)
  }

  predicate StackFits(stack: seq<Layer>)
  {
    stack != [] ==> AttrsFit(stack[0].attrs)
  }

  // ---- What the writer keeps true

  predicate RecordsSound(table: seq<(string, string)>, records: seq<AttrRecord>)
  {
    forall i :: 0 <= i < |records| ==> records[i].index < |table| && ValueFits(records[i].value)
  }

  predicate EntrySound(s: W.State, e: Entry)
  {
    e.frame.id < |s.tokens| && e.frame.len == |e.data| && RecordsSound(s.attrs, e.frame.attrs)
  }

  function TablesOf(s: W.State): R.Tables
  {
    R.Tables(s.tokens, s.attrs)
  }

  // The tables have no duplicates, every index is in range, and the entries stand for the layers.
  predicate Stores(s: W.State, layers: seq<Layer>)
  {
    && W.NoDuplicates(s.tokens) && W.NoDuplicates(s.attrs)
    && |s.entries| == |layers|
    && forall i :: 0 <= i < |layers| ==>
        EntrySound(s, s.entries[i]) && R.LayerOf(TablesOf(s), s.entries[i]) == layers[i]
  }

  lemma {:induction false} AttrsOfGrows(table: seq<(string, string)>, grown: seq<(string, string)>, records: seq<AttrRecord>)
    requires table <= grown && RecordsSound(table, records)
    ensures R.AttrsOf(grown, records) == R.AttrsOf(table, records)
  {
    if records != [] { AttrsOfGrows(table, grown, records[..|records| - 1]); }
  }

  // Growing the tables changes no entry.
  lemma EntryGrows(s: W.State, grown: W.State, e: Entry)
    requires s.tokens <= grown.tokens && s.attrs <= grown.attrs && EntrySound(s, e)
    ensures EntrySound(grown, e) && R.LayerOf(TablesOf(grown), e) == R.LayerOf(TablesOf(s), e)
  {
    AttrsOfGrows(s.attrs, grown.attrs, e.frame.attrs);
  }

  lemma StoresGrows(s: W.State, grown: W.State, layers: seq<Layer>)
    requires Stores(s, layers)
    requires s.tokens <= grown.tokens && s.attrs <= grown.attrs && s.entries == grown.entries
    requires W.NoDuplicates(grown.tokens) && W.NoDuplicates(grown.attrs)
    ensures Stores(grown, layers)
  {
    forall i | 0 <= i < |layers|
      ensures EntrySound(grown, grown.entries[i]) && R.LayerOf(TablesOf(grown), grown.entries[i]) == layers[i]
    {
      EntryGrows(s, grown, s.entries[i]);
    }
  }

  lemma ReadableSnoc(attrs: seq<Attr>)
    requires attrs != []
    ensures var init, a := attrs[..|attrs| - 1], attrs[|attrs| - 1];
      Readable(attrs) <==> Readable(init) && (a.isValue ==> a.value.Some?)
  {
  }

  // One more record for one more attribute.
  lemma KeepsOneMore(table: seq<(string, string)>, records: seq<AttrRecord>, a: Attr)
    requires RecordsSound(table, records) && a.value.Some? && V.InRange(a.value.value)
    ensures var (grown, i) := W.Intern(table, (a.id, a.typ));
      var all := records + [AttrRecord(i, ToValue(a.value.value))];
      && RecordsSound(grown, all)
      && R.AttrsOf(grown, all)
        == R.AttrsOf(table, records) + [Attr(a.id, a.typ, true, Some(ToVariant(ToValue(a.value.value))))]
  {
    var (grown, i) := W.Intern(table, (a.id, a.typ));
    var all := records + [AttrRecord(i, ToValue(a.value.value))];
    assert all[..|all| - 1] == records;
    AttrsOfGrows(table, grown, records);
  }

  // Attributes are collected unless one of them cannot be read, and stand for what a file keeps.
  lemma {:induction false} CollectKeeps(table: seq<(string, string)>, attrs: seq<Attr>)
    requires AttrsFit(attrs)
    ensures var c := W.Collect(table, attrs);
      && (c.ok <==> Readable(attrs)) && RecordsSound(c.table, c.records)
      && (c.ok ==> R.AttrsOf(c.table, c.records) == Kept(attrs))
  {
    if attrs != [] {
      var init, a := attrs[..|attrs| - 1], attrs[|attrs| - 1];
      CollectKeeps(table, init);
      ReadableSnoc(attrs);
      var c := W.Collect(table, init);
      if c.ok && a.isValue && a.value.Some? {
        KeepsOneMore(c.table, c.records, a);
      }
    }
  }

  /** A write keeps the tables free of duplicates and every earlier entry what it was, and adds the
      frame when there is one to add. */
  lemma WriteStores(s: W.State, stack: seq<Layer>, layers: seq<Layer>)
    requires Stores(s, layers) && StackFits(stack)
    ensures var (t, ok) := W.WriteSpec(s, stack);
      && s.tokens <= t.tokens && s.attrs <= t.attrs && s.entries <= t.entries
      && (ok <==> stack == [] || IsWritten(stack))
      && Stores(t, layers + if IsWritten(stack) then [Record(stack[0])] else [])
  {
    if stack == [] {
      assert layers + [] == layers;
    } else {
      var l := stack[0];
      CollectKeeps(s.attrs, l.attrs);
      var c := W.Collect(s.attrs, l.attrs);
      var (t, ok) := W.WriteSpec(s, stack);
      StoresGrows(s, t.(entries := s.entries), layers);
      if c.ok {
        StoresOneMore(t, s.entries, layers, t.entries[|s.entries|]);
        assert R.LayerOf(TablesOf(t), t.entries[|s.entries|]) == Record(l);
      } else {
        assert layers + [] == layers;
      }
    }
  }

  lemma StoresOneMore(t: W.State, before: seq<Entry>, layers: seq<Layer>, e: Entry)
    requires Stores(t.(entries := before), layers) && t.entries == before + [e] && EntrySound(t, e)
    ensures Stores(t, layers + [R.LayerOf(TablesOf(t), e)])
  {
    var kept := t.(entries := before);
    forall i | 0 <= i < |before|
      ensures EntrySound(t, before[i]) && R.LayerOf(TablesOf(t), before[i]) == layers[i]
    {
      assert EntrySound(kept, before[i]) && TablesOf(kept) == TablesOf(t);
    }
  }

  lemma {:induction false} AllStored(stacks: seq<seq<Layer>>)
    requires forall i :: 0 <= i < |stacks| ==> StackFits(stacks[i])
    ensures Stores(WriteAll(stacks), Written(stacks))
  {
    if stacks != [] {
      var init := stacks[..|stacks| - 1];
      AllStored(init);
      WriteStores(WriteAll(init), stacks[|stacks| - 1], Written(init));
    }
  }

  // ---- Reading it back

  lemma HeaderParts(h: Header)
    ensures |h.tokens| <= |HeaderBytes(h)| && |h.attrs| <= |HeaderBytes(h)|
  {
    CountFits(Text, h.tokens);
    CountFits(ClassBytes, h.attrs);
  }

  lemma FileParts(s: W.State)
    ensures |HeaderBytes(W.HeaderOf(s))| <= |W.FileOf(s)|
    ensures |s.entries| <= |Items(W.EntryBytes, s.entries)| <= |W.FileOf(s)|
  {
    CountFits(W.EntryBytes, s.entries);
  }

  lemma SizesFit(s: W.State)
    requires |W.FileOf(s)| < TWO_64
    ensures var h := W.HeaderOf(s);
      HeaderFits(h) && |HeaderBytes(h)| < TWO_64 && |h.tokens| < TWO_64 && |s.attrs| < TWO_64
  {
    FileParts(s);
    HeaderParts(W.HeaderOf(s));
  }

  // Every entry of a file that fits fits, and so does every number in it.
  lemma EntryFits(s: W.State, tokens: seq<string>, i: nat)
    requires i < |s.entries| && |Items(W.EntryBytes, s.entries)| < TWO_64
    requires EntrySound(s, s.entries[i]) && s.tokens <= tokens && |tokens| < TWO_64 && |s.attrs| < TWO_64
    ensures FrameFits(s.entries[i].frame) && |FrameBytes(s.entries[i].frame)| < TWO_64
  {
    ItemFits(W.EntryBytes, s.entries, i);
  }

  lemma BlobThenData(a: Bytes, b: Bytes, rest: Bytes)
    requires |a| < TWO_64
    ensures ReadBlob((Blob(a) + b) + rest) == Got(a, b + rest)
  {
    Associates(Blob(a), b, rest);
    BlobRoundTrip(a, b + rest);
  }

  lemma FrameIsRead(f: FrameRecord)
    requires FrameFits(f) && |FrameBytes(f)| < TWO_64
    ensures ReadFrame(FrameBytes(f)) == Got(f, [])
  {
    FrameRoundTrip(f, []);
    assert FrameBytes(f) + [] == FrameBytes(f);
  }

  lemma EntryIsRead(t: R.Tables, e: Entry, rest: Bytes)
    requires R.EntryInRange(t, e) && e.frame.len == |e.data|
    requires FrameFits(e.frame) && |FrameBytes(e.frame)| < TWO_64
    ensures R.ReadEntry(t, W.EntryBytes(e) + rest) == (R.Ok(R.LayerOf(t, e)), rest)
  {
    BlobThenData(FrameBytes(e.frame), e.data, rest);
    FrameIsRead(e.frame);
    TakeExactly(e.data, rest);
    assert Entry(e.frame, e.data) == e;
  }

  // The entry can be read with the tables, and then is the layer.
  predicate Reads(t: R.Tables, e: Entry, l: Layer)
  {
    && R.EntryInRange(t, e) && e.frame.len == |e.data|
    && FrameFits(e.frame) && |FrameBytes(e.frame)| < TWO_64
    && R.LayerOf(t, e) == l
  }

  // One entry read, and the rest.
  lemma EntriesOneMore(t: R.Tables, b: Bytes, n: nat, left: nat, l: Layer, rest: Bytes, more: seq<Layer>, end: Bytes)
    requires n > 0 && left == OneLess(n) && R.ReadEntry(t, b) == (R.Ok(l), rest) && R.ReadEntries(t, rest, left) == (R.Ok(more), end)
    ensures R.ReadEntries(t, b, n) == (R.Ok([l] + more), end)
  {
  }

  lemma EntryAndMore(t: R.Tables, e: Entry, items: Bytes, n: nat, left: nat, l: Layer, more: seq<Layer>, rest: Bytes)
    requires n > 0 && left == OneLess(n) && Reads(t, e, l)
    requires R.ReadEntries(t, items + rest, left) == (R.Ok(more), rest)
    ensures R.ReadEntries(t, (W.EntryBytes(e) + items) + rest, n) == (R.Ok([l] + more), rest)
  {
    Associates(W.EntryBytes(e), items, rest);
    EntryIsRead(t, e, items + rest);
    EntriesOneMore(t, (W.EntryBytes(e) + items) + rest, n, left, l, items + rest, more, rest);
  }

  // The entries can be read, one by one, as the layers.
  ghost predicate AllRead(t: R.Tables, entries: seq<Entry>, layers: seq<Layer>)
  {
    |entries| == |layers| && forall i :: 0 <= i < |entries| ==> Reads(t, entries[i], layers[i])
  }

  lemma FirstAndOthersRead(t: R.Tables, entries: seq<Entry>, layers: seq<Layer>)
    requires AllRead(t, entries, layers) && entries != []
    ensures Reads(t, entries[0], layers[0]) && AllRead(t, entries[1..], layers[1..])
    ensures layers == [layers[0]] + layers[1..]
  {
  }

  lemma NoEntries(t: R.Tables, rest: Bytes)
    ensures R.ReadEntries(t, Items(W.EntryBytes, []) + rest, 0) == (R.Ok([]), rest)
  {
    assert Items(W.EntryBytes, []) + rest == rest;
  }

  lemma {:induction false} EntriesAreRead(t: R.Tables, entries: seq<Entry>, layers: seq<Layer>, n: nat, rest: Bytes)
    requires n == |entries| && AllRead(t, entries, layers)
    ensures R.ReadEntries(t, Items(W.EntryBytes, entries) + rest, n) == (R.Ok(layers), rest)
  {
    if n == 0 {
      NoEntries(t, rest);
    } else {
      var left := OneLess(n);
      FirstAndOthersRead(t, entries, layers);
      EntriesAreRead(t, entries[1..], layers[1..], left, rest);
      EntryAndMore(t, entries[0], Items(W.EntryBytes, entries[1..]), n, left, layers[0], layers[1..], rest);
    }
  }

  lemma HeaderOpens(h: Header, rest: Bytes)
    requires HeaderFits(h) && R.ClassesInRange(h) && |HeaderBytes(h)| < TWO_64
    ensures R.OpenSpec(Blob(HeaderBytes(h)) + rest)
      == R.Ok(R.State(R.Tables(h.tokens, R.Resolve(h.tokens, h.attrs)), rest, h.entries))
  {
    var b := HeaderBytes(h);
    BlobRoundTrip(b, rest);
    assert b + [] == b;
    HeaderRoundTrip(h, []);
  }

  lemma ClassesResolve(s: W.State)
    ensures var h := W.HeaderOf(s); R.ClassesInRange(h) && R.Resolve(h.tokens, h.attrs) == s.attrs
  {
  }

  lemma HeaderIsRead(s: W.State, layers: seq<Layer>)
    requires Stores(s, layers) && |W.FileOf(s)| < TWO_64
    ensures R.OpenSpec(W.FileOf(s)) == R.Ok(R.State(R.Tables(W.HeaderOf(s).tokens, s.attrs),
      Items(W.EntryBytes, s.entries), |s.entries|))
  {
    SizesFit(s);
    ClassesResolve(s);
    HeaderOpens(W.HeaderOf(s), Items(W.EntryBytes, s.entries));
  }

  lemma StoredIsRead(s: W.State, layers: seq<Layer>)
    requires Stores(s, layers) && |W.FileOf(s)| < TWO_64
    ensures R.ReadEntries(R.Tables(W.HeaderOf(s).tokens, s.attrs), Items(W.EntryBytes, s.entries), |s.entries|)
      == (R.Ok(layers), [])
  {
    var tokens, file := W.HeaderOf(s).tokens, Items(W.EntryBytes, s.entries);
    var t := R.Tables(tokens, s.attrs);
    SizesFit(s);
    FileParts(s);
    forall i | 0 <= i < |layers| ensures Reads(t, s.entries[i], layers[i]) {
      EntryFits(s, tokens, i);
      EntryGrows(s, s.(tokens := tokens), s.entries[i]);
    }
    EntriesAreRead(t, s.entries, layers, |s.entries|, []);
    assert file + [] == file;
  }

  /** Reading the file gives back, in order, every frame that was written: its id, its data and its
      value attributes; reading once more gives nothing. */
  lemma FileRoundTrip(stacks: seq<seq<Layer>>)
    requires forall i :: 0 <= i < |stacks| ==> StackFits(stacks[i])
    requires |W.FileOf(WriteAll(stacks))| < TWO_64
    ensures var start := R.OpenSpec(W.FileOf(WriteAll(stacks)));
      && start.Ok?
      && var (s, first) := R.ReadSpec(start.value);
      && first == R.Ok(Written(stacks)) && s.input == [] && R.ReadSpec(s) == (s, R.Ok([]))
  {
    AllStored(stacks);
    HeaderIsRead(WriteAll(stacks), Written(stacks));
    StoredIsRead(WriteAll(stacks), Written(stacks));
  }
}
