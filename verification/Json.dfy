// JSON strings (section 7 of RFC 8259), as the filter language writes and reads them.
module Json {
  import opened Base
  import opened Numerals

  // The two-character escapes.
  function ShortEscape(c: char): Option<char>
  {
    if c == '"' then Some('"')
    else if c == '\\' then Some('\\')
    else if c as int == 0x08 then Some('b')
    else if c as int == 0x0c then Some('f')
    else if c == '\n' then Some('n')
    else if c == '\r' then Some('r')
    else if c == '\t' then Some('t')
    else None
  }

  function Unescape(c: char): Option<char>
  {
    if c == '"' || c == '\\' || c == '/' then Some(c)
    else if c == 'b' then Some(0x08 as char)
    else if c == 'f' then Some(0x0c as char)
    else if c == 'n' then Some('\n')
    else if c == 'r' then Some('\r')
    else if c == 't' then Some('\t')
    else None
  }

  function WriteChar(c: char): (s: string)
    ensures s != []
  {
    if ShortEscape(c).Some? then ['\\', ShortEscape(c).value]
    else if c as int < 0x20 then "\\u00" + [DigitChar(c as int / 16), DigitChar(c as int % 16)]
    else [c]
  }

  function WriteBody(s: string): string
  {
    if s == [] then [] else WriteChar(s[0]) + WriteBody(s[1..])
  }

  // serde_json::to_string
  function Write(s: string): string
  {
    "\"" + WriteBody(s) + "\""
  }

  // The four digits after "\u".
  function HexCode(s: string): (r: Option<nat>)
    ensures r.Some? ==> |s| >= 4 && r.value < 0x10000
  {
    if |s| >= 4 && forall i :: 0 <= i < 4 ==> IsDigit(s[i], 16) then
      Some(((DigitValue(s[0]) * 16 + DigitValue(s[1])) * 16 + DigitValue(s[2])) * 16 + DigitValue(s[3]))
    else None
  }

  // A code point outside the basic plane is written as two surrogates; one alone is refused.
  function ReadUnicode(s: string): (r: Option<(char, nat)>)
    ensures r.Some? ==> 4 <= r.value.1 <= |s|
  {
    var code := HexCode(s);
    if code.None? then None
    else
      var n := code.value;
      if 0xd800 <= n < 0xdc00 then
        if |s| > 5 && s[4] == '\\' && s[5] == 'u' && HexCode(s[6..]).Some? && 0xdc00 <= HexCode(s[6..]).value < 0xe000
        then Some(((0x10000 + (n - 0xd800) * 0x400 + (HexCode(s[6..]).value - 0xdc00)) as char, 10))
        else None
      else if 0xdc00 <= n < 0xe000 then None
      else Some((n as char, 4))
  }

  function ReadBody(s: string): Option<string>
    decreases |s|
  {
    if s == [] then Some([])
    else if s[0] == '\\' then
      if |s| < 2 then None
      else if s[1] == 'u' then
        var c := ReadUnicode(s[2..]);
        if c.None? then None
        else
          var more := ReadBody(s[2 + c.value.1..]);
          if more.Some? then Some([c.value.0] + more.value) else None
      else
        var c := Unescape(s[1]);
        var more := ReadBody(s[2..]);
        if c.Some? && more.Some? then Some([c.value] + more.value) else None
    else if s[0] == '"' || s[0] as int < 0x20 then None
    else
      var more := ReadBody(s[1..]);
      if more.Some? then Some([s[0]] + more.value) else None
  }

  // serde_json::from_str to a string
  function Read(s: string): Option<string>
  {
    if |s| >= 2 && s[0] == '"' && s[|s| - 1] == '"' then ReadBody(s[1..|s| - 1]) else None
  }

  lemma ShortEscapeReads(c: char, rest: string)
    requires ShortEscape(c).Some? && ReadBody(rest).Some?
    ensures ReadBody(WriteChar(c) + rest) == Some([c] + ReadBody(rest).value)
  {
    var s := WriteChar(c) + rest;
    assert s[0] == '\\' && s[1] == ShortEscape(c).value && s[2..] == rest;
    assert Unescape(ShortEscape(c).value) == Some(c) && s[1] != 'u';
  }

  // An escape "\u", four digits that are the character, and a rest that reads.
  lemma EscapeThenRest(c: char, four: string, rest: string)
    requires |four| == 4 && ReadUnicode(four + rest) == Some((c, 4)) && ReadBody(rest).Some?
    ensures ReadBody("\\u" + four + rest) == Some([c] + ReadBody(rest).value)
  {
    var s := "\\u" + four + rest;
    assert s[0] == '\\' && s[1] == 'u' && s[2..] == four + rest && s[6..] == rest;
  }

  lemma ControlReads(c: char, rest: string)
    requires c as int < 0x20 && ShortEscape(c).None? && ReadBody(rest).Some?
    ensures ReadBody(WriteChar(c) + rest) == Some([c] + ReadBody(rest).value)
  {
    var four := ['0', '0', DigitChar(c as int / 16), DigitChar(c as int % 16)];
    CodeOfFour(four, rest, 0, 0, c as int / 16, c as int % 16);
    EscapeThenRest(c, four, rest);
    assert WriteChar(c) == "\\u" + four;
  }

  lemma CodeOfFour(four: string, rest: string, a: nat, b: nat, c: nat, d: nat)
    requires a < 16 && b < 16 && c < 16 && d < 16
    requires four == [DigitChar(a), DigitChar(b), DigitChar(c), DigitChar(d)]
    ensures HexCode(four + rest) == Some(((a * 16 + b) * 16 + c) * 16 + d)
  {
    var s := four + rest;
    assert s[0] == four[0] && s[1] == four[1] && s[2] == four[2] && s[3] == four[3];
  }

  lemma WriteCharReads(c: char, rest: string)
    requires ReadBody(rest).Some?
    ensures ReadBody(WriteChar(c) + rest) == Some([c] + ReadBody(rest).value)
  {
    if ShortEscape(c).Some? {
      ShortEscapeReads(c, rest);
    } else if c as int < 0x20 {
      ControlReads(c, rest);
    } else {
      assert ([c] + rest)[1..] == rest;
    }
  }

  /** Reading a written string gives it back. */
  lemma {:induction false} RoundTrip(s: string)
    ensures Read(Write(s)) == Some(s)
  {
    BodyRoundTrip(s);
    assert Write(s)[1..|Write(s)| - 1] == WriteBody(s);
  }

  lemma {:induction false} BodyRoundTrip(s: string)
    ensures ReadBody(WriteBody(s)) == Some(s)
  {
    if s != [] {
      BodyRoundTrip(s[1..]);
      WriteCharReads(s[0], WriteBody(s[1..]));
      assert s == [s[0]] + s[1..];
    }
  }

  // ---- Escapes by code point

  // The four hexadecimal digits of a number below 2^16.
  function FourDigits(n: nat): (s: string)
    requires n < 0x10000
    ensures |s| == 4
  {
    [DigitChar(n / 16 / 16 / 16), DigitChar(n / 16 / 16 % 16), DigitChar(n / 16 % 16), DigitChar(n % 16)]
  }

  // The two surrogates of a code point beyond the basic plane.
  function High(n: nat): (h: nat)
    requires 0x10000 <= n < 0x110000
    ensures 0xd800 <= h < 0xdc00
  {
    0xd800 + (n - 0x10000) / 0x400
  }

  function Low(n: nat): (l: nat)
    requires 0x10000 <= n < 0x110000
    ensures 0xdc00 <= l < 0xe000 && n == 0x10000 + (High(n) - 0xd800) * 0x400 + (l - 0xdc00)
  {
    0xdc00 + (n - 0x10000) % 0x400
  }

  // A character by its code point: one escape, or two surrogates beyond the basic plane.
  function Escaped(c: char): string
  {
    if c as int < 0x10000 then "\\u" + FourDigits(c as int)
    else "\\u" + FourDigits(High(c as int)) + "\\u" + FourDigits(Low(c as int))
  }

  lemma FourDigitsRead(n: nat, rest: string)
    requires n < 0x10000
    ensures HexCode(FourDigits(n) + rest) == Some(n)
  {
    CodeOfFour(FourDigits(n), rest, n / 16 / 16 / 16, n / 16 / 16 % 16, n / 16 % 16, n % 16);
  }

  lemma SingleReads(c: char, rest: string)
    requires c as int < 0x10000
    ensures ReadUnicode(FourDigits(c as int) + rest) == Some((c, 4))
  {
    FourDigitsRead(c as int, rest);
  }

  // What follows the "\u".
  lemma EscapeReads(c: char) returns (s: string)
    ensures Escaped(c) == "\\u" + s && ReadUnicode(s) == Some((c, |s|))
  {
    if c as int < 0x10000 {
      s := FourDigits(c as int);
      SingleReads(c, []);
      assert s + [] == s;
    } else {
      s := PairEscapeReads(c, High(c as int), Low(c as int));
    }
  }

  lemma PairEscapeReads(c: char, high: nat, low: nat) returns (s: string)
    requires 0xd800 <= high < 0xdc00 <= low < 0xe000
    requires c as int == 0x10000 + (high - 0xd800) * 0x400 + (low - 0xdc00)
    ensures "\\u" + FourDigits(high) + "\\u" + FourDigits(low) == "\\u" + s && ReadUnicode(s) == Some((c, |s|))
  {
    s := PairOfEscapes(FourDigits(high), FourDigits(low));
    PairReads(c, high, low, []);
  }

  lemma PairOfEscapes(high: string, low: string) returns (s: string)
    requires |high| == |low| == 4
    ensures s == high + ("\\u" + (low + [])) && |s| == 10
    ensures "\\u" + high + "\\u" + low == "\\u" + s
  {
    s := high + ("\\u" + (low + []));
  }

  lemma PairReads(c: char, high: nat, low: nat, rest: string)
    requires 0xd800 <= high < 0xdc00 <= low < 0xe000
    requires c as int == 0x10000 + (high - 0xd800) * 0x400 + (low - 0xdc00)
    ensures ReadUnicode(FourDigits(high) + ("\\u" + (FourDigits(low) + rest))) == Some((c, 10))
  {
    var tail := "\\u" + (FourDigits(low) + rest);
    var s := FourDigits(high) + tail;
    FourDigitsRead(high, tail);
    FourDigitsRead(low, rest);
    assert s[4] == tail[0] && s[5] == tail[1] && s[6..] == FourDigits(low) + rest;
  }

  /** Every character can be written as its code point in four hexadecimal digits, or in two such escapes. */
  lemma CodePointReads(c: char)
    ensures Read("\"" + Escaped(c) + "\"") == Some([c])
  {
    var s := EscapeReads(c);
    var body := "\\u" + s;
    assert body[2..] == s && s[|s|..] == [];
    assert ReadBody([]) == Some([]) && [c] + [] == [c];
    assert ReadBody(body) == Some([c]);
    assert ("\"" + body + "\"")[1..|body| + 1] == body;
  }

  // A character that is written as itself.
  predicate Plain(c: char)
  {
    c as int >= 0x20 && c != '"' && c != '\\'
  }

  /** A text of plain characters is written as itself between quotes. */
  lemma {:induction false} PlainIsWritten(s: string)
    requires forall i :: 0 <= i < |s| ==> Plain(s[i])
    ensures WriteBody(s) == s && Write(s) == "\"" + s + "\""
  {
    if s != [] {
      PlainIsWritten(s[1..]);
      assert s == [s[0]] + s[1..];
    }
  }
}
