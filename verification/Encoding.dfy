// Bytes of the file formats: fixed-width integers, UTF-8, counted lists.
module Encoding {
  import opened Base

  // The result of a decoder: the value and the bytes after it.
  datatype Decoded<+T> = Got(value: T, rest: Bytes) | Bad

  lemma Associates(a: Bytes, b: Bytes, c: Bytes)
    ensures (a + b) + c == a + (b + c)
  {
  }

  // ---- Integers

  function Power256(k: nat): (p: nat)
    ensures p > 0
  {
    if k == 0 then 1 else 0x100 * Power256(k - 1)
  }

  // The k low bytes of n, least significant first; the rest is cut off, as the cast in the source does.
  function Little(n: nat, k: nat): (b: Bytes)
    ensures |b| == k
  {
    if k == 0 then [] else [n % 0x100] + Little(n / 0x100, k - 1)
  }

  // The same, most significant first.
  function Big(n: nat, k: nat): (b: Bytes)
    ensures |b| == k
  {
    if k == 0 then [] else Big(n / 0x100, k - 1) + [n % 0x100]
  }

  function FromLittle(b: Bytes): nat
  {
    if b == [] then 0 else b[0] + 0x100 * FromLittle(b[1..])
  }

  function FromBig(b: Bytes): nat
  {
    if b == [] then 0 else 0x100 * FromBig(b[..|b| - 1]) + b[|b| - 1]
  }

  lemma {:induction false} LittleRoundTrip(n: nat, k: nat)
    requires n < Power256(k)
    ensures FromLittle(Little(n, k)) == n
  {
    if k > 0 {
      LittleRoundTrip(n / 0x100, k - 1);
      assert Little(n, k)[1..] == Little(n / 0x100, k - 1);
    }
  }

  lemma {:induction false} BigRoundTrip(n: nat, k: nat)
    requires n < Power256(k)
    ensures FromBig(Big(n, k)) == n
  {
    if k > 0 {
      BigRoundTrip(n / 0x100, k - 1);
      assert Big(n, k)[..k - 1] == Big(n / 0x100, k - 1);
    }
  }

  // Byte i of a number, counted from the least significant one.
  function ByteOf(n: nat, i: nat): (b: byte)
  {
    if i == 0 then n % 0x100 else ByteOf(n / 0x100, i - 1)
  }

  /** Little-endian bytes begin with the least significant one, big-endian bytes end with it. */
  lemma {:induction false} BytesInOrder(n: nat, k: nat, i: nat)
    requires i < k
    ensures Little(n, k)[i] == ByteOf(n, i) && Big(n, k)[k - 1 - i] == ByteOf(n, i)
  {
    if i > 0 { BytesInOrder(n / 0x100, k - 1, i - 1); }
  }

  lemma Widths()
    ensures Power256(2) == 0x1_0000 && Power256(4) == TWO_32 && Power256(8) == TWO_64
  {
    assert Power256(1) == 0x100 * Power256(0);
    assert Power256(3) == 0x100 * Power256(2);
    assert Power256(5) == 0x100 * Power256(4);
    assert Power256(7) == 0x100 * Power256(6);
  }

  // Takes exactly n bytes.
  function Take(b: Bytes, n: nat): Decoded<Bytes>
  {
    if n <= |b| then Got(b[..n], b[n..]) else Bad
  }

  lemma TakeExactly(b: Bytes, rest: Bytes)
    ensures Take(b + rest, |b|) == Got(b, rest)
  {
    assert (b + rest)[..|b|] == b && (b + rest)[|b|..] == rest;
  }

  function U64(n: nat): Bytes { Little(n, 8) }

  function ReadU64(b: Bytes): Decoded<nat>
  {
    var d := Take(b, 8);
    if d.Got? then Got(FromLittle(d.value), d.rest) else Bad
  }

  lemma U64RoundTrip(n: nat, rest: Bytes)
    requires n < TWO_64
    ensures ReadU64(U64(n) + rest) == Got(n, rest)
  {
    Widths();
    LittleRoundTrip(n, 8);
    TakeExactly(U64(n), rest);
  }

  // ---- UTF-8

  // The i-th group of six bits.
  function Six(n: nat, i: nat): (d: nat)
    ensures d < 0x40
  {
    if i == 0 then n % 0x40 else Six(n / 0x40, i - 1)
  }

  lemma SixesMakeTwo(n: nat)
    requires n < 0x1000
    ensures n == Six(n, 1) * 0x40 + Six(n, 0)
  {
  }

  lemma SixesMakeThree(n: nat)
    requires n < 0x4_0000
    ensures n == (Six(n, 2) * 0x40 + Six(n, 1)) * 0x40 + Six(n, 0)
  {
    SixesMakeTwo(n / 0x40);
    assert Six(n, 2) == Six(n / 0x40, 1) && Six(n, 1) == Six(n / 0x40, 0);
  }

  lemma SixesMakeFour(n: nat)
    requires n < 0x100_0000
    ensures n == ((Six(n, 3) * 0x40 + Six(n, 2)) * 0x40 + Six(n, 1)) * 0x40 + Six(n, 0)
  {
    SixesMakeThree(n / 0x40);
    assert Six(n, 3) == Six(n / 0x40, 2) && Six(n, 2) == Six(n / 0x40, 1) && Six(n, 1) == Six(n / 0x40, 0);
  }

  function Utf8Char(c: char): (b: Bytes)
    ensures b != []
  {
    var n := c as int;
    if n < 0x80 then [n]
    else if n < 0x800 then [0xC0 + Six(n, 1), 0x80 + Six(n, 0)]
    else if n < 0x1_0000 then
      SixesMakeThree(n);
      [0xE0 + Six(n, 2), 0x80 + Six(n, 1), 0x80 + Six(n, 0)]
    else
      SixesMakeFour(n);
      [0xF0 + Six(n, 3), 0x80 + Six(n, 2), 0x80 + Six(n, 1), 0x80 + Six(n, 0)]
  }

  function Utf8(s: string): Bytes
  {
    if s == [] then [] else Utf8Char(s[0]) + Utf8(s[1..])
  }

  predicate Continues(b: Bytes, i: nat)
  {
    i < |b| && 0x80 <= b[i] < 0xC0
  }

  function Low(b: Bytes, i: nat): (d: nat)
    requires Continues(b, i)
    ensures d < 0x40
  {
    b[i] as int - 0x80
  }

  // The leading byte less its mark.
  function High(b: Bytes, mark: nat): (d: nat)
    requires b != [] && mark <= b[0]
    ensures d == b[0] as int - mark
  {
    b[0] as int - mark
  }

  /** Characters of each length, as section 3 of RFC 3629 has them. */
  lemma Utf8Samples()
    ensures Utf8Char('A') == [0x41] && Utf8Char('\U{E9}') == [0xC3, 0xA9]
    ensures Utf8Char('\U{20AC}') == [0xE2, 0x82, 0xAC] && Utf8Char('\U{1F600}') == [0xF0, 0x9F, 0x98, 0x80]
  {
    assert Six(0xE9, 1) == Six(3, 0);
    assert Six(0x20AC, 1) == Six(130, 0) && Six(0x20AC, 2) == Six(130, 1) == Six(2, 0);
    assert Six(0x1F600, 1) == Six(2008, 0) && Six(0x1F600, 2) == Six(2008, 1) == Six(31, 0);
    assert Six(0x1F600, 3) == Six(2008, 2) == Six(31, 1) == Six(0, 0);
  }

  // Overlong forms, surrogates and numbers past the last code point are refused.
  function ReadUtf8Char(b: Bytes): Decoded<char>
  {
    if b == [] then Bad
    else if b[0] < 0x80 then Got(b[0] as char, b[1..])
    else if 0xC0 <= b[0] < 0xE0 && Continues(b, 1) then
      Checked(High(b, 0xC0) * 0x40 + Low(b, 1), 0x80, b[2..])
    else if 0xE0 <= b[0] < 0xF0 && Continues(b, 1) && Continues(b, 2) then
      Checked((High(b, 0xE0) * 0x40 + Low(b, 1)) * 0x40 + Low(b, 2), 0x800, b[3..])
    else if 0xF0 <= b[0] < 0xF8 && Continues(b, 1) && Continues(b, 2) && Continues(b, 3) then
      Checked(((High(b, 0xF0) * 0x40 + Low(b, 1)) * 0x40 + Low(b, 2)) * 0x40 + Low(b, 3), 0x1_0000, b[4..])
    else Bad
  }

  function Checked(n: nat, least: nat, rest: Bytes): Decoded<char>
  {
    if n >= least && (n < 0xD800 || 0xE000 <= n < 0x11_0000) then Got(n as char, rest) else Bad
  }

  function ReadUtf8(b: Bytes): Option<string>
    decreases |b|
  {
    if b == [] then Some([])
    else
      var c := ReadUtf8Char(b);
      if c.Bad? || |c.rest| >= |b| then None
      else
        var more := ReadUtf8(c.rest);
        if more.Some? then Some([c.value] + more.value) else None
  }

  lemma Utf8CharRoundTrip(c: char, rest: Bytes)
    ensures ReadUtf8Char(Utf8Char(c) + rest) == Got(c, rest)
  {
    var n, b := c as int, Utf8Char(c);
    assert (b + rest)[|b|..] == rest;
    if n < 0x80 {
    } else if n < 0x800 {
      SixesMakeTwo(n);
    } else if n < 0x1_0000 {
      SixesMakeThree(n);
    } else {
      SixesMakeFour(n);
    }
  }

  lemma {:induction false} Utf8RoundTrip(s: string)
    ensures ReadUtf8(Utf8(s)) == Some(s)
  {
    if s != [] {
      Utf8CharRoundTrip(s[0], Utf8(s[1..]));
      Utf8RoundTrip(s[1..]);
      assert [s[0]] + s[1..] == s;
    }
  }

  // ---- Byte strings and text, with their length in front

  function Blob(b: Bytes): Bytes { U64(|b|) + b }

  function ReadBlob(b: Bytes): Decoded<Bytes>
  {
    var n := ReadU64(b);
    if n.Got? then Take(n.rest, n.value) else Bad
  }

  lemma BlobRoundTrip(b: Bytes, rest: Bytes)
    requires |b| < TWO_64
    ensures ReadBlob(Blob(b) + rest) == Got(b, rest)
  {
    Associates(U64(|b|), b, rest);
    U64RoundTrip(|b|, b + rest);
    TakeExactly(b, rest);
  }

  function Text(s: string): Bytes { Blob(Utf8(s)) }

  function ReadText(b: Bytes): Decoded<string>
  {
    var d := ReadBlob(b);
    if d.Got? && ReadUtf8(d.value).Some? then Got(ReadUtf8(d.value).value, d.rest) else Bad
  }

  lemma TextRoundTrip(s: string, rest: Bytes)
    requires |Text(s)| < TWO_64
    ensures ReadText(Text(s) + rest) == Got(s, rest)
  {
    BlobRoundTrip(Utf8(s), rest);
    Utf8RoundTrip(s);
  }

  // ---- Lists

  function Items<T>(enc: T -> Bytes, s: seq<T>): Bytes
  {
    if s == [] then [] else enc(s[0]) + Items(enc, s[1..])
  }

  function ReadItems<T>(dec: Bytes -> Decoded<T>, n: nat, b: Bytes): Decoded<seq<T>>
  {
    if n == 0 then Got([], b)
    else
      var first := dec(b);
      if first.Bad? then Bad
      else
        var more := ReadItems(dec, n - 1, first.rest);
        if more.Bad? then Bad else Got([first.value] + more.value, more.rest)
  }

  function List<T>(enc: T -> Bytes, s: seq<T>): Bytes
  {
    U64(|s|) + Items(enc, s)
  }

  function ReadList<T>(dec: Bytes -> Decoded<T>, b: Bytes): Decoded<seq<T>>
  {
    var n := ReadU64(b);
    if n.Got? then ReadItems(dec, n.value, n.rest) else Bad
  }

  // The decoder undoes the encoder on x, whatever follows.
  ghost predicate Undoes<T>(enc: T -> Bytes, dec: Bytes -> Decoded<T>, x: T)
  {
    forall rest: Bytes {:trigger enc(x) + rest} :: dec(enc(x) + rest) == Got(x, rest)
  }

  lemma {:induction false} ItemsRoundTrip<T>(enc: T -> Bytes, dec: Bytes -> Decoded<T>, s: seq<T>, rest: Bytes)
    requires forall i :: 0 <= i < |s| ==> Undoes(enc, dec, s[i])
    ensures ReadItems(dec, |s|, Items(enc, s) + rest) == Got(s, rest)
  {
    if s == [] {
      assert Items(enc, s) + rest == rest;
    } else {
      var tail := Items(enc, s[1..]) + rest;
      Associates(enc(s[0]), Items(enc, s[1..]), rest);
      assert dec(enc(s[0]) + tail) == Got(s[0], tail) by { assert Undoes(enc, dec, s[0]); }
      ItemsRoundTrip(enc, dec, s[1..], rest);
      assert [s[0]] + s[1..] == s;
    }
  }

  lemma ListRoundTrip<T>(enc: T -> Bytes, dec: Bytes -> Decoded<T>, s: seq<T>, rest: Bytes)
    requires forall i :: 0 <= i < |s| ==> Undoes(enc, dec, s[i])
    requires |s| < TWO_64
    ensures ReadList(dec, List(enc, s) + rest) == Got(s, rest)
  {
    Associates(U64(|s|), Items(enc, s), rest);
    U64RoundTrip(|s|, Items(enc, s) + rest);
    ItemsRoundTrip(enc, dec, s, rest);
  }

  // Every item is part of the whole.
  lemma {:induction false} ItemFits<T>(enc: T -> Bytes, s: seq<T>, i: nat)
    requires i < |s|
    ensures |enc(s[i])| <= |Items(enc, s)|
  {
    if i > 0 { ItemFits(enc, s[1..], i - 1); }
  }

  // As many items as bytes at most.
  lemma {:induction false} CountFits<T>(enc: T -> Bytes, s: seq<T>)
    requires forall i :: 0 <= i < |s| ==> enc(s[i]) != []
    ensures |s| <= |Items(enc, s)|
  {
    if s != [] {
      assert enc(s[0]) != [];
      CountFits(enc, s[1..]);
    }
  }
}
