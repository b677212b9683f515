/** UTF-8 (section 3 of RFC 3629) over JavaScript strings. */
module Utf8 {
  import opened Basics
  import opened Text

  type CodePoint = c: int | 0 <= c < 0x110000

  predicate IsHigh(u: Unit) {
    0xD800 <= u <= 0xDBFF
  }

  predicate IsLow(u: Unit) {
    0xDC00 <= u <= 0xDFFF
  }

  predicate IsScalar(c: int) {
    0 <= c < 0xD800 || 0xE000 <= c < 0x110000
  }

  predicate StartsWithPair(s: Str) {
    |s| >= 2 && IsHigh(s[0]) && IsLow(s[1])
  }

  // Surrogates occur only in pairs.
  predicate WellFormed(s: Str) {
    if s == [] then true
    else if StartsWithPair(s) then WellFormed(s[2..])
    else IsScalar(s[0]) && WellFormed(s[1..])
  }

  function Combined(high: int, low: int): int {
    0x10000 + (high - 0xD800) * 0x400 + (low - 0xDC00)
  }

  // The first code point of a string and how many units it takes.
  function FirstPoint(s: Str): CodePoint
    requires s != []
  {
    if StartsWithPair(s) then Combined(s[0], s[1]) else s[0]
  }

  function Width(s: Str): (n: nat)
    requires s != []
    ensures 1 <= n <= |s|
  {
    if StartsWithPair(s) then 2 else 1
  }

  function Units(c: int): (s: Str)
    requires IsScalar(c)
    ensures 1 <= |s| <= 2
  {
    if c < 0x10000 then [c] else [0xD800 + (c - 0x10000) / 0x400, 0xDC00 + (c - 0x10000) % 0x400]
  }

  lemma UnitsOfFirst(s: Str)
    requires s != [] && WellFormed(s)
    ensures IsScalar(FirstPoint(s)) && Units(FirstPoint(s)) == s[..Width(s)] && WellFormed(s[Width(s)..])
  {
  }

  function EncodePoint(c: CodePoint): (b: Bytes)
    ensures 1 <= |b| <= 4
  {
    if c < 0x80 then [c]
    else if c < 0x800 then [0xC0 + c / 64, 0x80 + c % 64]
    else if c < 0x10000 then [0xE0 + c / 4096, 0x80 + c / 64 % 64, 0x80 + c % 64]
    else [0xF0 + c / 262144, 0x80 + c / 4096 % 64, 0x80 + c / 64 % 64, 0x80 + c % 64]
  }

  // A surrogate on its own becomes U+FFFD, as Buffer.from does.
  function Encode(s: Str): Bytes
    decreases |s|
  {
    if s == [] then []
    else EncodePoint(if IsScalar(FirstPoint(s)) then FirstPoint(s) else 0xFFFD) + Encode(s[Width(s)..])
  }

  // How many bytes a lead byte announces; 0 if it is none.
  function Announced(b: Byte): (n: nat)
    ensures n <= 4
  {
    if b < 0x80 then 1
    else if b < 0xC0 then 0
    else if b < 0xE0 then 2
    else if b < 0xF0 then 3
    else if b < 0xF8 then 4
    else 0
  }

  predicate IsTail(b: Byte) {
    0x80 <= b < 0xC0
  }

  function Two(a: int, b: int): int {
    (a - 0xC0) * 64 + (b - 0x80)
  }

  function Three(a: int, b: int, c: int): int {
    (a - 0xE0) * 4096 + (b - 0x80) * 64 + (c - 0x80)
  }

  function Four(a: int, b: int, c: int, d: int): int {
    (a - 0xF0) * 262144 + (b - 0x80) * 4096 + (c - 0x80) * 64 + (d - 0x80)
  }

  // The code point in a group of bytes, or -1: wrong tails, overlong forms,
  // surrogates and values above U+10FFFF are rejected.
  function Point(g: Bytes): (c: int)
    requires 1 <= |g| <= 4
    ensures c == -1 || IsScalar(c)
  {
    if |g| == 1 then (if g[0] < 0x80 then g[0] else -1)
    else if !forall i :: 1 <= i < |g| ==> IsTail(g[i]) then -1
    else if |g| == 2 then
      var c := Two(g[0], g[1]);
      if 0xC0 <= g[0] < 0xE0 && c >= 0x80 then c else -1
    else if |g| == 3 then
      var c := Three(g[0], g[1], g[2]);
      if 0xE0 <= g[0] < 0xF0 && c >= 0x800 && IsScalar(c) then c else -1
    else
      var c := Four(g[0], g[1], g[2], g[3]);
      if 0xF0 <= g[0] < 0xF8 && 0x10000 <= c < 0x110000 then c else -1
  }

  // None: not UTF-8.
  function Decode(b: Bytes): Option<Str>
    decreases |b|
  {
    if b == [] then Some([])
    else
      var n := Announced(b[0]);
      if n == 0 || n > |b| || Point(b[..n]) == -1 then None
      else
        var tail := Decode(b[n..]);
        if tail.None? then None else Some(Units(Point(b[..n])) + tail.value)
  }

  lemma PointOfTwo(c: CodePoint)
    requires 0x80 <= c < 0x800
    ensures Point(EncodePoint(c)) == c && Announced(EncodePoint(c)[0]) == 2
  {
    var g := EncodePoint(c);
    assert IsTail(g[1]);
    assert Two(g[0], g[1]) == c;
  }

  lemma PointOfThree(c: CodePoint)
    requires 0x800 <= c < 0x10000 && IsScalar(c)
    ensures Point(EncodePoint(c)) == c && Announced(EncodePoint(c)[0]) == 3
  {
    var g := EncodePoint(c);
    assert IsTail(g[1]) && IsTail(g[2]);
    assert c == c / 4096 * 4096 + c / 64 % 64 * 64 + c % 64;
    assert Three(g[0], g[1], g[2]) == c;
  }

  lemma PointOfFour(c: CodePoint)
    requires 0x10000 <= c
    ensures Point(EncodePoint(c)) == c && Announced(EncodePoint(c)[0]) == 4
  {
    var g := EncodePoint(c);
    assert IsTail(g[1]) && IsTail(g[2]) && IsTail(g[3]);
    FourDigits(c);
    assert Four(g[0], g[1], g[2], g[3]) == c;
  }

  lemma FourDigits(c: int)
    ensures c == c / 262144 * 262144 + c / 4096 % 64 * 4096 + c / 64 % 64 * 64 + c % 64
  {
    var a, b := c / 64, c / 4096;
    assert b == a / 64 && c / 262144 == b / 64;
    assert c == a * 64 + c % 64 && a == b * 64 + a % 64 && b == b / 64 * 64 + b % 64;
  }

  lemma PointOfEncode(c: CodePoint)
    requires IsScalar(c)
    ensures Point(EncodePoint(c)) == c && Announced(EncodePoint(c)[0]) == |EncodePoint(c)|
  {
    if 0x80 <= c < 0x800 {
      PointOfTwo(c);
    } else if 0x800 <= c < 0x10000 {
      PointOfThree(c);
    } else if 0x10000 <= c {
      PointOfFour(c);
    }
  }

  lemma DecodeStep(g: Bytes, rest: Bytes)
    requires 1 <= |g| <= 4 && Announced(g[0]) == |g| && Point(g) != -1 && Decode(rest).Some?
    ensures Decode(g + rest) == Some(Units(Point(g)) + Decode(rest).value)
  {
    assert (g + rest)[..|g|] == g && (g + rest)[|g|..] == rest;
  }

  /** Every string without lone surrogates comes back from its UTF-8 bytes. */
  lemma {:induction false} DecodeInverts(s: Str)
    requires WellFormed(s)
    ensures Decode(Encode(s)) == Some(s)
    decreases |s|
  {
    if s != [] {
      UnitsOfFirst(s);
      DecodeInverts(s[Width(s)..]);
      PointOfEncode(FirstPoint(s));
      DecodeStep(EncodePoint(FirstPoint(s)), Encode(s[Width(s)..]));
      assert s == s[..Width(s)] + s[Width(s)..];
    }
  }
}
