// The reader of genet files (package/genet-file/reader/src/lib.rs).
module GenetReader {
  import opened Base
  import opened Frames
  import opened Encoding
  import opened GenetFormat

  // Panic is an index out of range.
  datatype Outcome<+T> = Ok(value: T) | Err | Panic

  datatype Tables = Tables(tokens: seq<string>, attrs: seq<(string, string)>)

  // A reader: the bytes not read yet and how many entries are left.
  datatype State = State(tables: Tables, input: Bytes, entries: nat)

  // ---- Opening

  predicate ClassesInRange(h: Header)
  {
    forall i :: 0 <= i < |h.attrs| ==> h.attrs[i].id < |h.tokens| && h.attrs[i].typ < |h.tokens|
  }

  function Resolve(tokens: seq<string>, classes: seq<AttrClass>): (s: seq<(string, string)>)
    requires ClassesInRange(Header(tokens, classes, 0))
    ensures |s| == |classes|
    ensures forall i :: 0 <= i < |s| ==> s[i] == (tokens[classes[i].id], tokens[classes[i].typ])
  {
    seq(|classes|, i requires 0 <= i < |classes| => (tokens[classes[i].id], tokens[classes[i].typ]))
  }

  function OpenSpec(file: Bytes): Outcome<State>
  {
    var buf := ReadBlob(file);
    if buf.Bad? then Err
    else
      var h := ReadHeader(buf.value);
      if h.Bad? then Err
      else if !ClassesInRange(h.value) then Panic
      else Ok(State(Tables(h.value.tokens, Resolve(h.value.tokens, h.value.attrs)), buf.rest, h.value.entries))
  }

  // ---- Reading

  predicate AttrsInRange(t: Tables, records: seq<AttrRecord>)
  {
    forall i :: 0 <= i < |records| ==> records[i].index < |t.attrs|
  }

  // The attributes that the records stand for.
  function AttrsOf(table: seq<(string, string)>, records: seq<AttrRecord>): seq<Attr>
    requires AttrsInRange(Tables([], table), records)
  {
    if records == [] then []
    else
      var r := records[|records| - 1];
      AttrsOf(table, records[..|records| - 1])
      + [Attr(table[r.index].0, table[r.index].1, true, Some(ToVariant(r.value)))]
  }

  predicate EntryInRange(t: Tables, e: Entry)
  {
    e.frame.id < |t.tokens| && AttrsInRange(t, e.frame.attrs)
  }

  // The layer that an entry stands for.
  function LayerOf(t: Tables, e: Entry): Layer
    requires EntryInRange(t, e)
  {
    Layer(t.tokens[e.frame.id], [], AttrsOf(t.attrs, e.frame.attrs), [], e.data)
  }

  // One entry, and the bytes after it; read_exact swallows what is left when there is too little.
  function ReadEntry(t: Tables, b: Bytes): (Outcome<Layer>, Bytes)
  {
    var buf := ReadBlob(b);
    if buf.Bad? then (Err, [])
    else
      var frame := ReadFrame(buf.value);
      if frame.Bad? then (Err, buf.rest)
      else
        var data := Take(buf.rest, frame.value.len);
        if data.Bad? then (Err, [])
        else
          var e := Entry(frame.value, data.value);
          (if EntryInRange(t, e) then Ok(LayerOf(t, e)) else Panic, data.rest)
  }

  function Prepend(layers: seq<Layer>, o: Outcome<seq<Layer>>): Outcome<seq<Layer>>
  {
    if o.Ok? then Ok(layers + o.value) else o
  }

  function ReadEntries(t: Tables, b: Bytes, n: nat): (Outcome<seq<Layer>>, Bytes)
  {
    if n == 0 then (Ok([]), b)
    else
      var (first, rest) := ReadEntry(t, b);
      match first
      case Err => (Err, rest)
      case Panic => (Panic, rest)
      case Ok(l) =>
        var (more, end) := ReadEntries(t, rest, OneLess(n));
        (Prepend([l], more), end)
  }

  // One call of read. After a failure the number of entries stays as it was.
  function ReadSpec(s: State): (State, Outcome<seq<Layer>>)
  {
    var (o, rest) := ReadEntries(s.tables, s.input, s.entries);
    (State(s.tables, rest, if o.Ok? then 0 else s.entries), o)
  }

  // ---- The reader

  class Worker {
    var tables: Tables
    var input: Bytes
    var entries: nat

    ghost function Value(): State
      reads this
    {
      State(tables, input, entries)
    }

    constructor (s: State)
      ensures Value() == s
    {
      tables, input, entries := s.tables, s.input, s.entries;
    }

    method Read() returns (o: Outcome<seq<Layer>>)
      modifies this`input, this`entries
      ensures (Value(), o) == ReadSpec(old(Value()))
    {
      var layers, left := [], entries;
      ghost var whole := ReadEntries(tables, input, left);
      StartOfRead(tables, input, left);
      while left > 0
        invariant entries == old(entries)
        invariant Resumes(tables, layers, input, left, whole)
      {
        var one := ReadEntry(tables, input);
        ReadStep(tables, layers, input, left, whole);
        input := one.1;
        match one.0 {
          case Err => return Err;
          case Panic => return Panic;
          case Ok(l) => layers := layers + [l];
        }
        left := left - 1;
      }
      ReadDone(tables, layers, input, whole);
      entries := 0;
      o := Ok(layers);
    }
  }

  // The whole result is what was read so far and what is still to read. It is stated behind a quantifier, so that the
  // prover does not unfold the recursion in every turn of the loop; Resumed opens it.
  ghost predicate Resumes(t: Tables, layers: seq<Layer>, b: Bytes, n: nat, whole: (Outcome<seq<Layer>>, Bytes))
  {
    forall k: nat {:trigger At(k)} :: At(k) && k == n ==> whole == Resume(t, layers, b, k)
  }

  // Always true: the trigger that opens Resumes.
  predicate At(k: nat) { true }

  // What is still to read, after the layers read so far.
  ghost function Resume(t: Tables, layers: seq<Layer>, b: Bytes, n: nat): (Outcome<seq<Layer>>, Bytes)
  {
    var (more, end) := ReadEntries(t, b, n);
    (Prepend(layers, more), end)
  }

  lemma StartOfRead(t: Tables, b: Bytes, n: nat)
    ensures Resumes(t, [], b, n, ReadEntries(t, b, n))
  {
    var o := ReadEntries(t, b, n).0;
    if o.Ok? { assert [] + o.value == o.value; }
  }

  lemma ReadGoesOn(t: Tables, layers: seq<Layer>, b: Bytes, n: nat, l: Layer, rest: Bytes)
    requires n > 0 && ReadEntry(t, b) == (Ok(l), rest)
    ensures Resume(t, layers, b, n) == Resume(t, layers + [l], rest, OneLess(n))
  {
    PrependAgain(layers, [l], ReadEntries(t, rest, OneLess(n)).0);
  }

  lemma Resumed(t: Tables, layers: seq<Layer>, b: Bytes, n: nat, whole: (Outcome<seq<Layer>>, Bytes))
    ensures Resumes(t, layers, b, n, whole) <==> whole == Resume(t, layers, b, n)
  {
    assert At(n);
  }

  lemma ReadStep(t: Tables, layers: seq<Layer>, b: Bytes, n: nat, whole: (Outcome<seq<Layer>>, Bytes))
    requires n > 0 && Resumes(t, layers, b, n, whole)
    ensures match ReadEntry(t, b).0
      case Err => whole == (Err, ReadEntry(t, b).1)
      case Panic => whole == (Panic, ReadEntry(t, b).1)
      case Ok(l) => Resumes(t, layers + [l], ReadEntry(t, b).1, OneLess(n), whole)
  {
    Resumed(t, layers, b, n, whole);
    var one := ReadEntry(t, b);
    if one.0.Ok? {
      ReadGoesOn(t, layers, b, n, one.0.value, one.1);
      Resumed(t, layers + [one.0.value], one.1, OneLess(n), whole);
    }
  }

  lemma ReadDone(t: Tables, layers: seq<Layer>, b: Bytes, whole: (Outcome<seq<Layer>>, Bytes))
    requires Resumes(t, layers, b, 0, whole)
    ensures whole == (Ok(layers), b)
  {
    assert At(0);
    assert layers + [] == layers;
  }

  lemma PrependAgain(a: seq<Layer>, b: seq<Layer>, o: Outcome<seq<Layer>>)
    ensures Prepend(a, Prepend(b, o)) == Prepend(a + b, o)
  {
    if o.Ok? { assert a + (b + o.value) == (a + b) + o.value; }
  }

  // The classes of the attributes, one by one; None when an index is out of range.
  method ResolveAll(h: Header) returns (attrs: Option<seq<(string, string)>>)
    ensures attrs == if ClassesInRange(h) then Some(Resolve(h.tokens, h.attrs)) else None
  {
    var done := [];
    for k := 0 to |h.attrs|
      invariant |done| == k
      invariant forall i :: 0 <= i < k ==> h.attrs[i].id < |h.tokens| && h.attrs[i].typ < |h.tokens|
      invariant forall i :: 0 <= i < k ==> done[i] == (h.tokens[h.attrs[i].id], h.tokens[h.attrs[i].typ])
    {
      var c := h.attrs[k];
      if c.id >= |h.tokens| || c.typ >= |h.tokens| {
        return None;
      }
      done := done + [(h.tokens[c.id], h.tokens[c.typ])];
    }
    assert done == Resolve(h.tokens, h.attrs);
    attrs := Some(done);
  }

  // new_worker
  method Open(file: Bytes) returns (o: Outcome<State>)
    ensures o == OpenSpec(file)
  {
    var buf := ReadBlob(file);
    if buf.Bad? {
      return Err;
    }
    var h := ReadHeader(buf.value);
    if h.Bad? {
      return Err;
    }
    var attrs := ResolveAll(h.value);
    if attrs.None? {
      return Panic;
    }
    o := Ok(State(Tables(h.value.tokens, attrs.value), buf.rest, h.value.entries));
  }
}
