// Integers as digit strings and as bytes, in the forms the filter language uses.
module Numerals {
  import opened Base

  // ---- Digits

  function DigitChar(d: nat): (c: char)
    requires d < 16
    ensures DigitValue(c) == d
  {
    if d < 10 then '0' + d as char else 'a' + (d - 10) as char
  }

  function DigitValue(c: char): (d: nat)
    ensures d <= 16
  {
    if '0' <= c <= '9' then c as int - '0' as int
    else if 'a' <= c <= 'f' then 10 + (c as int - 'a' as int)
    else if 'A' <= c <= 'F' then 10 + (c as int - 'A' as int)
    else 16
  }

  // c is a digit of the radix.
  predicate IsDigit(c: char, radix: nat)
  {
    DigitValue(c) < Min(radix, 16)
  }

  // to_str_radix, and the decimal form of the integers.
  function Digits(n: nat, radix: nat): (s: string)
    requires 2 <= radix <= 16
    ensures s != [] && forall i :: 0 <= i < |s| ==> IsDigit(s[i], radix)
    decreases n
  {
    if n < radix then [DigitChar(n)] else
      Divided(n, radix);
      Digits(n / radix, radix) + [DigitChar(n % radix)]
  }

  lemma Divided(n: nat, radix: nat)
    requires 2 <= radix <= n
    ensures n == n / radix * radix + n % radix && n % radix < radix && n / radix < n
  {
  }

  // from_str_radix on digits of the radix.
  function FromDigits(s: string, radix: nat): nat
  {
    if s == [] then 0 else FromDigits(s[..|s| - 1], radix) * radix + DigitValue(s[|s| - 1])
  }

  lemma {:induction false} DigitsRoundTrip(n: nat, radix: nat)
    requires 2 <= radix <= 16
    ensures FromDigits(Digits(n, radix), radix) == n
    decreases n
  {
    if n < radix {
      assert Digits(n, radix)[..0] == [];
    } else {
      Divided(n, radix);
      DigitsRoundTrip(n / radix, radix);
      var s := Digits(n, radix);
      assert s[..|s| - 1] == Digits(n / radix, radix);
    }
  }

  function UpperCase(c: char): char
  {
    if 'a' <= c <= 'f' then 'A' + (c - 'a') else c
  }

  function InUpperCase(s: string): (t: string)
    ensures |t| == |s| && forall i :: 0 <= i < |s| ==> t[i] == UpperCase(s[i])
  {
    seq(|s|, i requires 0 <= i < |s| => UpperCase(s[i]))
  }

  /** Digits in upper case are digits too, and read as the same number. */
  lemma {:induction false} UpperCaseReads(s: string, radix: nat)
    ensures FromDigits(InUpperCase(s), radix) == FromDigits(s, radix)
    ensures forall i :: 0 <= i < |s| ==> (IsDigit(InUpperCase(s)[i], radix) <==> IsDigit(s[i], radix))
  {
    forall i | 0 <= i < |s| ensures DigitValue(InUpperCase(s)[i]) == DigitValue(s[i]) {
      UpperCaseValue(s[i]);
    }
    if s != [] {
      var n := |s| - 1;
      UpperCaseReads(s[..n], radix);
      assert InUpperCase(s)[..n] == InUpperCase(s[..n]);
    }
  }

  lemma UpperCaseValue(c: char)
    ensures DigitValue(UpperCase(c)) == DigitValue(c)
  {
    if 'a' <= c <= 'f' {
      assert c as int - 'a' as int <= 5;
      assert UpperCase(c) as int == 'A' as int + (c as int - 'a' as int);
    }
  }

  // ---- Bytes

  // BigInt::from_bytes_be with a plus sign.
  function Magnitude(b: seq<byte>): nat
  {
    if b == [] then 0 else Magnitude(b[..|b| - 1]) * 0x100 + b[|b| - 1]
  }

  // BigInt::from_signed_bytes_be: two's complement, most significant byte first.
  function FromSignedBytes(b: seq<byte>): int
  {
    if b == [] then 0
    else if |b| == 1 then if b[0] < 0x80 then b[0] else b[0] - 0x100
    else FromSignedBytes(b[..|b| - 1]) * 0x100 + b[|b| - 1]
  }

  // to_signed_bytes_be: the shortest such bytes.
  function ToSignedBytes(n: int): (b: seq<byte>)
    ensures b != []
    decreases if n < 0 then -n else n
  {
    if -0x80 <= n < 0x80 then [n % 0x100] else ToSignedBytes(n / 0x100) + [n % 0x100]
  }

  lemma {:induction false} SignedBytesRoundTrip(n: int)
    ensures FromSignedBytes(ToSignedBytes(n)) == n
    decreases if n < 0 then -n else n
  {
    if !(-0x80 <= n < 0x80) {
      SignedBytesRoundTrip(n / 0x100);
      var b := ToSignedBytes(n);
      assert b[..|b| - 1] == ToSignedBytes(n / 0x100);
    }
  }

  // The number is below zero: so says its first byte.
  predicate Negative(b: seq<byte>)
  {
    b != [] && b[0] >= 0x80
  }

  function SignByte(b: seq<byte>): (s: byte)
  {
    if Negative(b) then 0xff else 0
  }

  lemma {:induction false} SignIsFirst(b: seq<byte>)
    ensures Negative(b) <==> FromSignedBytes(b) < 0
  {
    if |b| > 1 {
      SignIsFirst(b[..|b| - 1]);
    }
  }

  // 256 to the power of n.
  function Weight(n: nat): nat
  {
    if n == 0 then 1 else 0x100 * Weight(n - 1)
  }

  /** Two's complement: a negative number is the unsigned one less the weight of the byte that would come next. */
  lemma {:induction false} SignedIsComplement(b: seq<byte>)
    ensures FromSignedBytes(b) == Magnitude(b) - if Negative(b) then Weight(|b|) else 0
  {
    if |b| == 1 {
      assert b[..0] == [] && Weight(1) == 0x100 * Weight(0);
    } else if |b| > 1 {
      SignedIsComplement(b[..|b| - 1]);
    }
  }

  // Another sign byte in front makes no difference.
  lemma {:induction false} OneSignMore(b: seq<byte>)
    ensures FromSignedBytes([SignByte(b)] + b) == FromSignedBytes(b)
  {
    var longer := [SignByte(b)] + b;
    if b != [] {
      var init := b[..|b| - 1];
      assert longer[..|b|] == [SignByte(b)] + init;
      if |b| > 1 {
        OneSignMore(init);
      } else {
        assert longer[..1] == [SignByte(b)];
      }
    }
  }

  // The first byte is needed: it is not a mere copy of the sign.
  predicate Minimal(b: seq<byte>)
  {
    b != [] && (|b| > 1 ==> !(b[0] == 0 && b[1] < 0x80) && !(b[0] == 0xff && b[1] >= 0x80))
  }

  /** Minimal two's-complement bytes are unique: the shortest bytes of a value are the only minimal ones. */
  lemma {:induction false} MinimalUnique(b: seq<byte>)
    requires Minimal(b)
    ensures ToSignedBytes(FromSignedBytes(b)) == b
  {
    var n := FromSignedBytes(b);
    if |b| > 1 {
      var init := b[..|b| - 1];
      assert n / 0x100 == FromSignedBytes(init) && n % 0x100 == b[|b| - 1];
      MinimalUnique(init);
      MinimalRange(b);
    }
  }

  // More than one minimal byte means that one byte would not do.
  lemma {:induction false} MinimalRange(b: seq<byte>)
    requires Minimal(b) && |b| > 1
    ensures !(-0x80 <= FromSignedBytes(b) < 0x80)
  {
    var init := b[..|b| - 1];
    if |b| == 2 {
      assert FromSignedBytes(init) == b[0] as int - if b[0] < 0x80 then 0 else 0x100;
    } else {
      assert init[0] == b[0] && init[1] == b[1];
      MinimalRange(init);
    }
  }

  lemma {:induction false} ToSignedMinimal(n: int)
    ensures Minimal(ToSignedBytes(n))
    decreases if n < 0 then -n else n
  {
    if !(-0x80 <= n < 0x80) {
      ToSignedMinimal(n / 0x100);
      var init := ToSignedBytes(n / 0x100);
      if -0x80 <= n / 0x100 < 0x80 {
        assert init == [(n / 0x100) % 0x100];
        assert ToSignedBytes(n)[1] == n % 0x100;
      } else {
        assert |init| > 1;
      }
    }
  }
}
