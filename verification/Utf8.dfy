/** UTF-8 over bytes written as characters with their codes: the validity check
    that text conversions make, and the encoding it accepts. */
module Utf8 {
  predicate Continuation(c: char) { 0x80 <= c as int <= 0xBF }

  /** Well-formed UTF-8, as table 3-7 of the Unicode standard defines it. */
  predicate ValidUtf8(s: string) {
    if s == [] then true
    else
      var b := s[0] as int;
      if b < 0x80 then ValidUtf8(s[1..])
      else if |s| >= 2 && 0xC2 <= b <= 0xDF then Continuation(s[1]) && ValidUtf8(s[2..])
      else if |s| >= 3 && 0xE0 <= b <= 0xEF then
        && Continuation(s[1]) && Continuation(s[2])
        && (b == 0xE0 ==> s[1] as int >= 0xA0) && (b == 0xED ==> s[1] as int <= 0x9F)
        && ValidUtf8(s[3..])
      else if |s| >= 4 && 0xF0 <= b <= 0xF4 then
        && Continuation(s[1]) && Continuation(s[2]) && Continuation(s[3])
        && (b == 0xF0 ==> s[1] as int >= 0x90) && (b == 0xF4 ==> s[1] as int <= 0x8F)
        && ValidUtf8(s[4..])
      else false
  }

  /** A Unicode scalar value: a code point that is no surrogate. */
  type Scalar = n: int | 0 <= n < 0xD800 || 0xE000 <= n < 0x110000

  function Byte(n: int): char
    requires 0 <= n < 256
  {
    n as char
  }

  /** The bytes of a scalar value. */
  function Encode(n: Scalar): string {
    if n < 0x80 then [Byte(n)]
    else if n < 0x800 then [Byte(0xC0 + n / 64), Byte(0x80 + n % 64)]
    else if n < 0x10000 then [Byte(0xE0 + n / 4096), Byte(0x80 + n / 64 % 64), Byte(0x80 + n % 64)]
    else [Byte(0xF0 + n / 262144), Byte(0x80 + n / 4096 % 64), Byte(0x80 + n / 64 % 64), Byte(0x80 + n % 64)]
  }

  function EncodeAll(text: seq<Scalar>): string {
    if text == [] then [] else Encode(text[0]) + EncodeAll(text[1..])
  }

  /** A scalar's bytes in front do not change validity. */
  lemma EncodedValid(n: Scalar, rest: string)
    ensures ValidUtf8(Encode(n) + rest) <==> ValidUtf8(rest)
  {
    var s := Encode(n) + rest;
    assert s[|Encode(n)|..] == rest;
    if n < 0x80 {
      assert s[0] == Byte(n);
    } else if n < 0x800 {
      assert s[0] == Byte(0xC0 + n / 64) && s[1] == Byte(0x80 + n % 64);
    } else if n < 0x10000 {
      assert s[0] == Byte(0xE0 + n / 4096) && s[1] == Byte(0x80 + n / 64 % 64) && s[2] == Byte(0x80 + n % 64);
    } else {
      assert s[0] == Byte(0xF0 + n / 262144) && s[1] == Byte(0x80 + n / 4096 % 64);
      assert s[2] == Byte(0x80 + n / 64 % 64) && s[3] == Byte(0x80 + n % 64);
    }
  }

  lemma TwoBytes(a: int, b: int) returns (n: Scalar)
    requires 0xC2 <= a <= 0xDF && 0x80 <= b <= 0xBF
    ensures Encode(n) == [Byte(a), Byte(b)]
  {
    n := (a - 0xC0) * 64 + (b - 0x80);
  }

  lemma ThreeBytes(a: int, b: int, c: int) returns (n: Scalar)
    requires 0xE0 <= a <= 0xEF && 0x80 <= b <= 0xBF && 0x80 <= c <= 0xBF
    requires (a == 0xE0 ==> b >= 0xA0) && (a == 0xED ==> b <= 0x9F)
    ensures Encode(n) == [Byte(a), Byte(b), Byte(c)]
  {
    var m := (a - 0xE0) * 4096 + (b - 0x80) * 64 + (c - 0x80);
    assert 0x800 <= m < 0x10000;
    assert m < 0xD800 || 0xE000 <= m;
    n := m;
    assert n / 64 == (a - 0xE0) * 64 + (b - 0x80);
  }

  lemma FourBytes(a: int, b: int, c: int, d: int) returns (n: Scalar)
    requires 0xF0 <= a <= 0xF4 && 0x80 <= b <= 0xBF && 0x80 <= c <= 0xBF && 0x80 <= d <= 0xBF
    requires (a == 0xF0 ==> b >= 0x90) && (a == 0xF4 ==> b <= 0x8F)
    ensures Encode(n) == [Byte(a), Byte(b), Byte(c), Byte(d)]
  {
    var m := (a - 0xF0) * 262144 + (b - 0x80) * 4096 + (c - 0x80) * 64 + (d - 0x80);
    assert 0x10000 <= m < 0x110000;
    n := m;
    assert n / 64 == (a - 0xF0) * 4096 + (b - 0x80) * 64 + (c - 0x80);
    assert n / 4096 == (a - 0xF0) * 64 + (b - 0x80);
  }

  /** A valid text begins with the bytes of some scalar. */
  lemma FirstScalar(s: string) returns (n: Scalar)
    requires ValidUtf8(s) && s != []
    ensures Encode(n) <= s && ValidUtf8(s[|Encode(n)|..])
  {
    var a := s[0] as int;
    if a < 0x80 {
      n := a;
    } else if a <= 0xDF {
      n := TwoBytes(a, s[1] as int);
    } else if a <= 0xEF {
      n := ThreeBytes(a, s[1] as int, s[2] as int);
    } else {
      n := FourBytes(a, s[1] as int, s[2] as int, s[3] as int);
    }
  }

  lemma {:induction false} DecodeAll(s: string) returns (text: seq<Scalar>)
    requires ValidUtf8(s)
    ensures EncodeAll(text) == s
    decreases |s|
  {
    if s == [] {
      text := [];
    } else {
      var n := FirstScalar(s);
      var rest := DecodeAll(s[|Encode(n)|..]);
      text := [n] + rest;
    }
  }

  lemma {:induction false} EncodedAllValid(text: seq<Scalar>)
    ensures ValidUtf8(EncodeAll(text))
  {
    if text != [] {
      EncodedAllValid(text[1..]);
      EncodedValid(text[0], EncodeAll(text[1..]));
    }
  }

  /** The valid byte strings are exactly the encoded texts. */
  lemma ValidIffEncoded(s: string)
    ensures ValidUtf8(s) <==> exists text: seq<Scalar> :: EncodeAll(text) == s
  {
    if ValidUtf8(s) {
      var text := DecodeAll(s);
    }
    if text: seq<Scalar> :| EncodeAll(text) == s {
      EncodedAllValid(text);
    }
  }
}
