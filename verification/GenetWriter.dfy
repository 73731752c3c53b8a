// The writer of genet files (package/genet-file/writer/src/lib.rs).
module GenetWriter {
  import opened Base
  import opened Frames
  import opened Encoding
  import opened GenetFormat

  // The intern tables and the entries kept until the end.
  datatype State = State(tokens: seq<string>, attrs: seq<(string, string)>, entries: seq<Entry>)

  const NEW := State([], [], [])

  // ---- Interning

  // The first position of x, or the length.
  function IndexOf<T(==)>(s: seq<T>, x: T): (i: nat)
    ensures i <= |s| && (i < |s| ==> s[i] == x) && forall j :: 0 <= j < i ==> s[j] != x
  {
    if s == [] || s[0] == x then 0 else 1 + IndexOf(s[1..], x)
  }

  // The table with x in it, and where x is.
  function Intern<T(==)>(s: seq<T>, x: T): (r: (seq<T>, nat))
    ensures s <= r.0 && r.1 < |r.0| && r.0[r.1] == x
    ensures NoDuplicates(s) ==> NoDuplicates(r.0)
  {
    if IndexOf(s, x) < |s| then (s, IndexOf(s, x)) else (s + [x], |s|)
  }

  predicate NoDuplicates<T(==)>(s: seq<T>)
  {
    forall i, j :: 0 <= i < j < |s| ==> s[i] != s[j]
  }

  // ---- The attributes of a layer

  datatype Collected = Collected(table: seq<(string, string)>, records: seq<AttrRecord>, ok: bool)

  // Interns the value attributes up to the first one that cannot be read.
  function Collect(table: seq<(string, string)>, attrs: seq<Attr>): (c: Collected)
    ensures table <= c.table
    ensures NoDuplicates(table) ==> NoDuplicates(c.table)
    ensures forall i :: 0 <= i < |c.records| ==> c.records[i].index < |c.table|
  {
    if attrs == [] then Collected(table, [], true)
    else
      var c, a := Collect(table, attrs[..|attrs| - 1]), attrs[|attrs| - 1];
      if c.ok && a.isValue then
        var (more, i) := Intern(c.table, (a.id, a.typ));
        if a.value.None? then Collected(more, c.records, false)
        else Collected(more, c.records + [AttrRecord(i, ToValue(a.value.value))], true)
      else c
  }

  // Writing one frame: its first layer, if it has one. A failed write leaves the tables grown.
  function WriteSpec(s: State, layers: seq<Layer>): (State, bool)
  {
    if layers == [] then (s, true)
    else
      var l := layers[0];
      var c := Collect(s.attrs, l.attrs);
      if !c.ok then (s.(attrs := c.table), false)
      else
        var (tokens, id) := Intern(s.tokens, l.id);
        (State(tokens, c.table, s.entries + [Entry(FrameRecord(id, |l.data|, c.records), l.data)]), true)
  }

  // ---- The end

  // The classes of the attributes, as token indices.
  function Classes(tokens: seq<string>, attrs: seq<(string, string)>): (r: (seq<string>, seq<AttrClass>))
    ensures tokens <= r.0 && |r.1| == |attrs|
    ensures NoDuplicates(tokens) ==> NoDuplicates(r.0)
    ensures forall i :: 0 <= i < |attrs| ==>
      && r.1[i].id < |r.0| && r.1[i].typ < |r.0|
      && r.0[r.1[i].id] == attrs[i].0 && r.0[r.1[i].typ] == attrs[i].1
  {
    if attrs == [] then (tokens, [])
    else
      var (before, classes) := Classes(tokens, attrs[..|attrs| - 1]);
      var (withId, id) := Intern(before, attrs[|attrs| - 1].0);
      var (withTyp, typ) := Intern(withId, attrs[|attrs| - 1].1);
      (withTyp, classes + [AttrClass(id, typ)])
  }

  function HeaderOf(s: State): Header
  {
    var (tokens, classes) := Classes(s.tokens, s.attrs);
    Header(tokens, classes, |s.entries|)
  }

  function EntryBytes(e: Entry): Bytes
  {
    Blob(FrameBytes(e.frame)) + e.data
  }

  function FileOf(s: State): Bytes
  {
    Blob(HeaderBytes(HeaderOf(s))) + Items(EntryBytes, s.entries)
  }

  lemma {:induction false} ItemsSnoc<T>(enc: T -> Bytes, s: seq<T>, x: T)
    ensures Items(enc, s + [x]) == Items(enc, s) + enc(x)
  {
    if s == [] {
      assert ([x])[1..] == [];
      assert [] + [x] == [x];
    } else {
      ItemsSnoc(enc, s[1..], x);
      assert (s + [x])[1..] == s[1..] + [x];
    }
  }

  // ---- The writer

  class Worker {
    var tokens: seq<string>
    var attrs: seq<(string, string)>
    var entries: seq<Entry>
    var out: Bytes

    ghost function Value(): State
      reads this
    {
      State(tokens, attrs, entries)
    }

    constructor ()
      ensures Value() == NEW && out == []
    {
      tokens, attrs, entries, out := [], [], [], [];
    }

    method GetTokenIndex(id: string) returns (index: nat)
      modifies this`tokens
      ensures (tokens, index) == Intern(old(tokens), id)
    {
      index := Position(tokens, id);
      if index == |tokens| {
        tokens := tokens + [id];
      }
    }

    method GetAttrIndex(id: string, typ: string) returns (index: nat)
      modifies this`attrs
      ensures (attrs, index) == Intern(old(attrs), (id, typ))
    {
      index := Position(attrs, (id, typ));
      if index == |attrs| {
        attrs := attrs + [(id, typ)];
      }
    }

    method Write(layers: seq<Layer>) returns (ok: bool)
      modifies this`tokens, this`attrs, this`entries
      ensures (Value(), ok) == WriteSpec(old(Value()), layers)
    {
      if layers == [] {
        return true;
      }
      var l := layers[0];
      var records := [];
      for k := 0 to |l.attrs|
        invariant Value() == old(Value()).(attrs := attrs)
        invariant Collect(old(attrs), l.attrs[..k]) == Collected(attrs, records, true)
      {
        var a := l.attrs[k];
        PrefixStep(l.attrs, k);
        if a.isValue {
          var index := GetAttrIndex(a.id, a.typ);
          if a.value.None? {
            CollectFailed(old(attrs), l.attrs, k + 1);
            return false;
          }
          records := records + [AttrRecord(index, ToValue(a.value.value))];
        }
      }
      assert l.attrs[..|l.attrs|] == l.attrs;
      var id := GetTokenIndex(l.id);
      entries := entries + [Entry(FrameRecord(id, |l.data|, records), l.data)];
      ok := true;
    }

    // The mapping over the attribute table at the start of end.
    method MapClasses() returns (classes: seq<AttrClass>)
      modifies this`tokens
      ensures (tokens, classes) == Classes(old(tokens), attrs)
    {
      classes := [];
      for k := 0 to |attrs|
        invariant (tokens, classes) == Classes(old(tokens), attrs[..k])
      {
        PrefixStep(attrs, k);
        var id := GetTokenIndex(attrs[k].0);
        var typ := GetTokenIndex(attrs[k].1);
        classes := classes + [AttrClass(id, typ)];
      }
      assert attrs[..|attrs|] == attrs;
    }

    method WriteBlob(bin: Bytes)
      modifies this`out
      ensures out == old(out) + Blob(bin)
    {
      out := out + U64(|bin|);
      out := out + bin;
    }

    method WriteEntries()
      modifies this`out
      ensures out == old(out) + Items(EntryBytes, entries)
    {
      for k := 0 to |entries|
        invariant out == old(out) + Items(EntryBytes, entries[..k])
      {
        EntriesStep(old(out), entries, k);
        WriteBlob(FrameBytes(entries[k].frame));
        out := out + entries[k].data;
      }
      assert entries[..|entries|] == entries;
    }

    method End()
      modifies this`tokens, this`out
      ensures out == old(out) + FileOf(old(Value()))
      ensures tokens == HeaderOf(old(Value())).tokens
    {
      var classes := MapClasses();
      var header := Header(tokens, classes, |entries|);
      FileParts(old(Value()), header, old(out));
      WriteBlob(HeaderBytes(header));
      WriteEntries();
    }
  }

  lemma FileParts(s: State, header: Header, before: Bytes)
    requires header == HeaderOf(s)
    ensures (before + Blob(HeaderBytes(header))) + Items(EntryBytes, s.entries) == before + FileOf(s)
  {
  }

  lemma EntriesStep(before: Bytes, entries: seq<Entry>, k: nat)
    requires k < |entries|
    ensures before + Items(EntryBytes, entries[..k + 1])
      == before + Items(EntryBytes, entries[..k]) + Blob(FrameBytes(entries[k].frame)) + entries[k].data
  {
    assert entries[..k + 1] == entries[..k] + [entries[k]];
    ItemsSnoc(EntryBytes, entries[..k], entries[k]);
  }

  // The iterator's position search.
  method Position<T(==)>(s: seq<T>, x: T) returns (i: nat)
    ensures i == IndexOf(s, x)
  {
    i := 0;
    while i < |s| && s[i] != x
      invariant i <= |s| && IndexOf(s, x) == i + IndexOf(s[i..], x)
    {
      i := i + 1;
    }
  }

  lemma PrefixStep<T>(s: seq<T>, k: nat)
    requires k < |s|
    ensures s[..k + 1][..k] == s[..k] && s[..k + 1][k] == s[k]
  {
  }

  // Nothing is collected after a failure.
  lemma {:induction false} CollectFailed(table: seq<(string, string)>, attrs: seq<Attr>, k: nat)
    requires k <= |attrs| && !Collect(table, attrs[..k]).ok
    ensures Collect(table, attrs) == Collect(table, attrs[..k])
    decreases |attrs|
  {
    if k == |attrs| {
      assert attrs[..k] == attrs;
    } else {
      var init := attrs[..|attrs| - 1];
      assert init[..k] == attrs[..k];
      CollectFailed(table, init, k);
    }
  }
}
