/**
 encodeURIComponent and decodeURIComponent (section 19.2.6 of ECMA-262, section 2.1 of
 RFC 3986), escape and unescape (section B.2.1 of ECMA-262), and the URL normaliser.
 */
module Percent {
  import opened Basics
  import opened Text
  import Utf8

  // ---------------------------------------------------------------- escapes

  function Escape3(b: Byte): Str {
    [PERCENT, HexUpper(b / 16), HexUpper(b % 16)]
  }

  function Escapes(b: Bytes): Str {
    if b == [] then [] else Escape3(b[0]) + Escapes(b[1..])
  }

  // The byte that an escape at the front of s stands for, or -1.
  function HexByte(s: Str): (v: int)
    ensures -1 <= v < 256
    ensures v >= 0 ==> |s| >= 3
  {
    if |s| < 3 || s[0] != PERCENT || HexValue(s[1]) < 0 || HexValue(s[2]) < 0 then -1
    else HexValue(s[1]) * 16 + HexValue(s[2])
  }

  // The bytes of n escapes in a row.
  function Group(s: Str, n: nat): (g: Option<Bytes>)
    ensures g.Some? ==> |g.value| == n && 3 * n <= |s|
  {
    if n == 0 then Some([])
    else if HexByte(s) < 0 then None
    else
      var tail := Group(s[3..], n - 1);
      if tail.None? then None else Some([HexByte(s)] + tail.value)
  }

  // ---------------------------------------------------------------- the URI functions

  predicate Unreserved(u: Unit) {
    || IsUpper(u) || IsLower(u) || IsDigit(u)
    || u in {MINUS, UNDERSCORE, DOT, 0x21, 0x7E, 0x2A, 0x27, 0x28, 0x29}   // - _ . ! ~ * ' ( )
  }

  // None: URIError.
  function EncodeURIComponent(s: Str): Option<Str>
    decreases |s|
  {
    if s == [] then Some([])
    else if !Utf8.IsScalar(Utf8.FirstPoint(s)) then None
    else
      var tail := EncodeURIComponent(s[Utf8.Width(s)..]);
      if tail.None? then None
      else if Unreserved(s[0]) then Some([s[0]] + tail.value)
      else Some(Escapes(Utf8.EncodePoint(Utf8.FirstPoint(s))) + tail.value)
  }

  function DecodeURIComponent(s: Str): Option<Str>
    decreases |s|
  {
    if s == [] then Some([])
    else if s[0] != PERCENT then
      var tail := DecodeURIComponent(s[1..]);
      if tail.None? then None else Some([s[0]] + tail.value)
    else if HexByte(s) < 0 || Utf8.Announced(HexByte(s)) == 0 then None
    else
      var n := Utf8.Announced(HexByte(s));
      var g := Group(s, n);
      if g.None? || Utf8.Point(g.value) == -1 then None
      else
        var tail := DecodeURIComponent(s[3 * n..]);
        if tail.None? then None else Some(Utf8.Units(Utf8.Point(g.value)) + tail.value)
  }

  lemma HexByteOfEscape(b: Byte, rest: Str)
    ensures HexByte(Escape3(b) + rest) == b
  {
  }

  lemma {:induction false} GroupOfEscapes(b: Bytes, rest: Str)
    ensures |Escapes(b)| == 3 * |b|
    ensures Group(Escapes(b) + rest, |b|) == Some(b)
  {
    if b != [] {
      var tail := Escapes(b[1..]) + rest;
      GroupOfEscapes(b[1..], rest);
      Associative(Escape3(b[0]), Escapes(b[1..]), rest);
      HexByteOfEscape(b[0], tail);
      assert (Escape3(b[0]) + tail)[3..] == tail;
      assert b == [b[0]] + b[1..];
    }
  }

  // One escaped group at the front decodes to the units of its code point.
  lemma DecodeOfGroup(g: Bytes, rest: Str)
    requires 1 <= |g| <= 4 && Utf8.Announced(g[0]) == |g|
    ensures |Escapes(g)| == 3 * |g| && HexByte(Escapes(g) + rest) == g[0] && Group(Escapes(g) + rest, |g|) == Some(g)
    ensures DecodeURIComponent(Escapes(g) + rest) ==
            if Utf8.Point(g) == -1 || DecodeURIComponent(rest).None? then None
            else Some(Utf8.Units(Utf8.Point(g)) + DecodeURIComponent(rest).value)
  {
    var s := Escapes(g) + rest;
    GroupOfEscapes(g, rest);
    assert s == Escape3(g[0]) + (Escapes(g[1..]) + rest);
    HexByteOfEscape(g[0], Escapes(g[1..]) + rest);
    assert s[3 * |g|..] == rest;
  }

  lemma DecodeOfPoint(c: Utf8.CodePoint, rest: Str)
    requires Utf8.IsScalar(c) && DecodeURIComponent(rest).Some?
    ensures DecodeURIComponent(Escapes(Utf8.EncodePoint(c)) + rest) ==
            Some(Utf8.Units(c) + DecodeURIComponent(rest).value)
  {
    Utf8.PointOfEncode(c);
    DecodeOfGroup(Utf8.EncodePoint(c), rest);
  }

  lemma DecodePlain(u: Unit, rest: Str)
    requires u != PERCENT && DecodeURIComponent(rest).Some?
    ensures DecodeURIComponent([u] + rest) == Some([u] + DecodeURIComponent(rest).value)
  {
    assert ([u] + rest)[1..] == rest;
  }

  /** Decoding undoes encoding, which succeeds exactly on strings without lone surrogates. */
  lemma {:induction false} DecodeInverts(s: Str)
    ensures EncodeURIComponent(s).Some? <==> Utf8.WellFormed(s)
    ensures Utf8.WellFormed(s) ==> DecodeURIComponent(EncodeURIComponent(s).value) == Some(s)
    decreases |s|
  {
    if s != [] {
      var rest := s[Utf8.Width(s)..];
      DecodeInverts(rest);
      if Utf8.WellFormed(s) {
        Utf8.UnitsOfFirst(s);
        assert s == s[..Utf8.Width(s)] + rest;
        if Unreserved(s[0]) {
          DecodePlain(s[0], EncodeURIComponent(rest).value);
        } else {
          DecodeOfPoint(Utf8.FirstPoint(s), EncodeURIComponent(rest).value);
        }
      }
    }
  }

  // ---------------------------------------------------------------- the normaliser

  const PERCENT25: Str := [PERCENT, 0x32, 0x35]

  predicate Has25(s: Str) {
    |s| >= 3 && (s[..3] == PERCENT25 || Has25(s[1..]))
  }

  function Normalize(url: Str): Str {
    if Has25(url) && DecodeURIComponent(url).Some? then DecodeURIComponent(url).value else url
  }

  lemma PointShort(g: Bytes)
    requires 1 <= |g| <= 4 && Utf8.Point(g) != -1
    ensures |Utf8.Units(Utf8.Point(g))| + 2 <= 3 * |g|
  {
  }

  lemma {:induction false} DecodeShrinks(s: Str)
    requires DecodeURIComponent(s).Some?
    ensures |DecodeURIComponent(s).value| <= |s|
    ensures PERCENT in s ==> |DecodeURIComponent(s).value| + 2 <= |s|
    decreases |s|
  {
    if s != [] {
      if s[0] != PERCENT {
        DecodeShrinks(s[1..]);
        assert s == [s[0]] + s[1..];
      } else {
        var n := Utf8.Announced(HexByte(s));
        PointShort(Group(s, n).value);
        DecodeShrinks(s[3 * n..]);
      }
    }
  }

  lemma {:induction false} Has25HasPercent(s: Str)
    requires Has25(s)
    ensures PERCENT in s
  {
    if s[..3] == PERCENT25 { assert s[0] == PERCENT25[0]; } else { Has25HasPercent(s[1..]); }
  }

  predicate Percent25At(s: Str, i: int) {
    0 <= i && i + 3 <= |s| && s[i] == PERCENT && s[i + 1] == 0x32 && s[i + 2] == 0x35
  }

  lemma {:induction false} Has25Exactly(s: Str)
    ensures Has25(s) <==> exists i :: Percent25At(s, i)
  {
    if |s| >= 3 {
      Has25Exactly(s[1..]);
      assert s[..3] == PERCENT25 <==> Percent25At(s, 0);
      assert forall i :: Percent25At(s[1..], i) ==> Percent25At(s, i + 1);
      assert forall i :: i > 0 && Percent25At(s, i) ==> Percent25At(s[1..], i - 1);
    }
  }

  /** Normalising leaves a URL alone if and only if it holds no "%25" or does not decode. */
  lemma NormalizeFixesExactly(s: Str)
    ensures Normalize(s) == s <==> (forall i :: !Percent25At(s, i)) || DecodeURIComponent(s).None?
  {
    Has25Exactly(s);
    if Has25(s) && DecodeURIComponent(s).Some? { DecodeChanges(s); }
  }

  /** A URL that normalising changes gets at least two characters shorter. */
  lemma NormalizeShrinks(s: Str)
    ensures Normalize(s) != s ==> |Normalize(s)| + 2 <= |s|
  {
    if Normalize(s) != s {
      DecodeShrinks(s);
      Has25HasPercent(s);
    }
  }

  function Iterate(s: Str, n: nat): Str
    decreases n
  {
    if n == 0 then s else Iterate(Normalize(s), n - 1)
  }

  lemma {:induction false} FixedStays(s: Str, n: nat)
    requires Normalize(s) == s
    ensures Iterate(s, n) == s
  {
    if n > 0 { FixedStays(s, n - 1); }
  }

  /** Repetition reaches a fixed point within half the length. */
  lemma {:induction false} NormalizeSettles(s: Str, n: nat)
    requires |s| <= 2 * n + 1
    ensures Normalize(Iterate(s, n)) == Iterate(s, n)
    decreases n
  {
    NormalizeShrinks(s);
    if Normalize(s) == s {
      FixedStays(s, n);
    } else {
      NormalizeSettles(Normalize(s), n - 1);
    }
  }

  lemma {:induction false} EncodedPercent(s: Str)
    requires Utf8.WellFormed(s) && PERCENT in s && EncodeURIComponent(s).Some?
    ensures Has25(EncodeURIComponent(s).value)
    decreases |s|
  {
    var w := Utf8.Width(s);
    var rest := s[w..];
    Utf8.UnitsOfFirst(s);
    var e := EncodeURIComponent(rest).value;
    if s[0] == PERCENT {
      assert Utf8.EncodePoint(PERCENT)[1..] == [];
      assert Escapes(Utf8.EncodePoint(PERCENT)) == PERCENT25 + [];
      assert (PERCENT25 + [] + e)[..3] == PERCENT25;
    } else {
      assert w == 2 ==> s[1] != PERCENT;
      assert s == s[..w] + rest;
      EncodedPercent(rest);
      var front := if Unreserved(s[0]) then [s[0]] else Escapes(Utf8.EncodePoint(Utf8.FirstPoint(s)));
      Has25After(front, e);
    }
  }

  lemma {:induction false} Has25After(s: Str, t: Str)
    requires Has25(t)
    ensures Has25(s + t)
  {
    if s == [] {
      assert s + t == t;
    } else {
      assert (s + t)[1..] == s[1..] + t;
      Has25After(s[1..], t);
    }
  }

  /** One pass undoes exactly one encodeURIComponent layer, for every well-formed string with a '%'. */
  lemma NormalizeUndoesOneLayer(s: Str)
    requires Utf8.WellFormed(s) && PERCENT in s
    ensures EncodeURIComponent(s).Some? && Normalize(EncodeURIComponent(s).value) == s
  {
    DecodeInverts(s);
    EncodedPercent(s);
  }

  // What follows the digit d at the front of s, spelled plainly or as an escape.
  function AfterDigit(s: Str, d: Byte): Option<Str> {
    if s != [] && s[0] == d then Some(s[1..]) else if HexByte(s) == d then Some(s[3..]) else None
  }

  // "%25" and then a 2 and a 5, however spelled.
  predicate SpellsEscape(s: Str) {
    HexByte(s) == PERCENT &&
    var two := AfterDigit(s[3..], 0x32);
    two.Some? && AfterDigit(two.value, 0x35).Some?
  }

  // The URL spells "%25" one layer down.
  predicate Spells25(s: Str) {
    s != [] && (SpellsEscape(s) || Spells25(s[1..]))
  }

  lemma DigitDecodes(s: Str, d: Byte)
    requires DecodeURIComponent(s).Some? && IsDigit(d)
    ensures var t := DecodeURIComponent(s).value;
            && (AfterDigit(s, d).Some? <==> t != [] && t[0] == d)
            && (AfterDigit(s, d).Some? ==> DecodeURIComponent(AfterDigit(s, d).value) == Some(t[1..]))
  {
    if s != [] && s[0] == PERCENT { EscapeDecodes(s); }
  }

  // The first escape of a decodable text is a character below U+0080, or part of one that is not.
  lemma EscapeDecodes(s: Str)
    requires s != [] && s[0] == PERCENT && DecodeURIComponent(s).Some?
    ensures var t, b := DecodeURIComponent(s).value, HexByte(s);
            && b >= 0 && t != []
            && (b < 0x80 ==> t[0] == b && DecodeURIComponent(s[3..]) == Some(t[1..]))
            && (b >= 0x80 ==> t[0] >= 0x80)
  {
    DecodeUnfolds(s);
    var g := Group(s, Utf8.Announced(HexByte(s))).value;
    if g[0] >= 0x80 { UnitsHigh(g); }
  }

  lemma UnitsHigh(g: Bytes)
    requires 1 <= |g| <= 4 && Utf8.Announced(g[0]) == |g| && Utf8.Point(g) != -1 && g[0] >= 0x80
    ensures Utf8.Units(Utf8.Point(g))[0] >= 0x80
  {
  }

  // Escapes of other bytes, and their digits, spell nothing.
  lemma {:induction false} SpellsPastGroup(s: Str, n: nat)
    requires Group(s, n).Some? && forall b <- Group(s, n).value :: b != PERCENT
    ensures Spells25(s) <==> Spells25(s[3 * n..])
  {
    if n > 0 {
      assert Group(s, n).value[0] == HexByte(s) && HexByte(s) in Group(s, n).value;
      SpellsPastEscape(s);
      assert Group(s, n).value[1..] == Group(s[3..], n - 1).value;
      assert forall b <- Group(s, n).value[1..] :: b in Group(s, n).value;
      SpellsPastGroup(s[3..], n - 1);
      assert s[3..][3 * (n - 1)..] == s[3 * n..];
    } else {
      assert s[3 * n..] == s;
    }
  }

  lemma SpellsPastEscape(s: Str)
    requires HexByte(s) >= 0
    ensures Spells25(s) <==> SpellsEscape(s) || Spells25(s[3..])
  {
    assert s[1..][1..] == s[2..] && s[2..][1..] == s[3..];
    assert s[1..][0] == s[1] && s[2..][0] == s[2];
    SpellsPastPlain(s[1..]);
    SpellsPastPlain(s[2..]);
  }

  lemma SpellsPastPlain(s: Str)
    requires s != [] && s[0] != PERCENT
    ensures Spells25(s) <==> Spells25(s[1..])
  {
  }

  lemma Has25Past(u: Unit, t: Str)
    ensures Has25([u] + t) <==> (u == PERCENT && |t| >= 2 && t[0] == 0x32 && t[1] == 0x35) || Has25(t)
  {
    var s := [u] + t;
    assert s[1..] == t;
    if |s| >= 3 {
      assert s[..3] == [u, t[0], t[1]];
      assert s[..3] == PERCENT25 <==> u == PERCENT && t[0] == 0x32 && t[1] == 0x35;
    }
  }

  lemma {:induction false} DecodeShows25(s: Str)
    requires DecodeURIComponent(s).Some?
    ensures Has25(DecodeURIComponent(s).value) <==> Spells25(s)
    decreases |s|
  {
    if s != [] {
      var t := DecodeURIComponent(s).value;
      if s[0] != PERCENT {
        DecodeShows25(s[1..]);
        Has25Past(s[0], DecodeURIComponent(s[1..]).value);
      } else if HexByte(s) == PERCENT {
        PercentShows25(s);
        DecodeShows25(s[3..]);
        SpellsPastEscape(s);
      } else {
        GroupShows25(s);
        var n := Utf8.Announced(HexByte(s));
        DecodeShows25(s[3 * n..]);
        SpellsPastGroup(s, n);
      }
    }
  }

  lemma PercentShows25(s: Str)
    requires HexByte(s) == PERCENT && DecodeURIComponent(s).Some?
    ensures DecodeURIComponent(s[3..]).Some?
    ensures Has25(DecodeURIComponent(s).value) <==> SpellsEscape(s) || Has25(DecodeURIComponent(s[3..]).value)
  {
    EscapeDecodes(s);
    var t := DecodeURIComponent(s[3..]).value;
    assert DecodeURIComponent(s).value == [PERCENT] + t;
    Has25Past(PERCENT, t);
    DigitDecodes(s[3..], 0x32);
    if AfterDigit(s[3..], 0x32).Some? { DigitDecodes(AfterDigit(s[3..], 0x32).value, 0x35); }
  }

  lemma GroupShows25(s: Str)
    requires s != [] && s[0] == PERCENT && HexByte(s) != PERCENT && DecodeURIComponent(s).Some?
    ensures var n := Utf8.Announced(HexByte(s));
            && Group(s, n).Some? && (forall b <- Group(s, n).value :: b != PERCENT)
            && DecodeURIComponent(s[3 * n..]).Some?
            && (Has25(DecodeURIComponent(s).value) <==> Has25(DecodeURIComponent(s[3 * n..]).value))
  {
    var n := Utf8.Announced(HexByte(s));
    DecodeUnfolds(s);
    var g := Group(s, n).value;
    UnitsNoPercent(g);
    Has25PastUnits(Utf8.Units(Utf8.Point(g)), DecodeURIComponent(s[3 * n..]).value);
  }

  lemma DecodeUnfolds(s: Str)
    requires s != [] && s[0] == PERCENT && DecodeURIComponent(s).Some?
    ensures var n := Utf8.Announced(HexByte(s));
            && n > 0 && Group(s, n).Some? && Group(s, n).value[0] == HexByte(s) && Utf8.Point(Group(s, n).value) != -1
            && DecodeURIComponent(s[3 * n..]).Some?
            && DecodeURIComponent(s).value == Utf8.Units(Utf8.Point(Group(s, n).value)) + DecodeURIComponent(s[3 * n..]).value
  {
  }

  lemma Has25PastUnits(us: Str, rest: Str)
    requires 1 <= |us| <= 2 && PERCENT !in us
    ensures Has25(us + rest) <==> Has25(rest)
  {
    if |us| == 1 {
      Has25Past(us[0], rest);
      assert us + rest == [us[0]] + rest;
    } else {
      Has25Past(us[1], rest);
      Has25Past(us[0], [us[1]] + rest);
      assert us + rest == [us[0]] + ([us[1]] + rest);
    }
  }

  lemma UnitsNoPercent(g: Bytes)
    requires 1 <= |g| <= 4 && Utf8.Announced(g[0]) == |g| && Utf8.Point(g) != -1 && g[0] != PERCENT
    ensures PERCENT !in Utf8.Units(Utf8.Point(g)) && PERCENT !in g
  {
    if |g| > 1 {
      assert forall i :: 1 <= i < |g| ==> Utf8.IsTail(g[i]);
      assert g[0] >= 0xC0;
    }
  }

  /**
   Normalising twice is normalising once exactly when the URL does not spell "%25" one layer
   down, or does not decode, or its decoded form does not decode again.
   */
  lemma {:induction false} NormalizeIdempotentExactly(s: Str)
    ensures Normalize(Normalize(s)) == Normalize(s) <==>
            || !Spells25(s)
            || DecodeURIComponent(s).None?
            || DecodeURIComponent(DecodeURIComponent(s).value).None?
  {
    if DecodeURIComponent(s).Some? {
      DecodeShows25(s);
      if Spells25(s) { Spelling(s); }
      var t := DecodeURIComponent(s).value;
      if Has25(t) && DecodeURIComponent(t).Some? { DecodeChanges(t); }
    }
  }

  lemma {:induction false} Spelling(s: Str)
    requires Spells25(s)
    ensures Has25(s)
  {
    if SpellsEscape(s) {
      assert s[..3] == PERCENT25;
    } else {
      Spelling(s[1..]);
    }
  }

  lemma DecodeChanges(t: Str)
    requires Has25(t) && DecodeURIComponent(t).Some?
    ensures DecodeURIComponent(t).value != t
  {
    DecodeShrinks(t);
    Has25HasPercent(t);
  }

  lemma {:induction false} AsciiWellFormed(s: Str)
    requires SevenBit(s)
    ensures Utf8.WellFormed(s)
  {
    if s != [] { AsciiWellFormed(s[1..]); }
  }

  lemma {:induction false} EscapesAscii(b: Bytes)
    ensures SevenBit(Escapes(b))
  {
    if b != [] { EscapesAscii(b[1..]); }
  }

  lemma {:induction false} EncodedAscii(s: Str)
    requires EncodeURIComponent(s).Some?
    ensures SevenBit(EncodeURIComponent(s).value)
    decreases |s|
  {
    if s != [] {
      EncodedAscii(s[Utf8.Width(s)..]);
      EscapesAscii(Utf8.EncodePoint(Utf8.FirstPoint(s)));
    }
  }

  /** No doubly encoded URL with a '%' is settled by one pass: the second pass decodes again. */
  lemma NormalizeNotIdempotent(s: Str)
    requires Utf8.WellFormed(s) && PERCENT in s
    ensures EncodeURIComponent(s).Some? && EncodeURIComponent(EncodeURIComponent(s).value).Some?
    ensures var once := EncodeURIComponent(s).value;
            var twice := EncodeURIComponent(once).value;
            Normalize(twice) == once && Normalize(Normalize(twice)) == s != once
  {
    NormalizeUndoesOneLayer(s);
    EncodedPercent(s);
    EncodedAscii(s);
    var once := EncodeURIComponent(s).value;
    Has25HasPercent(once);
    AsciiWellFormed(once);
    NormalizeUndoesOneLayer(once);
    DecodeInverts(s);
    DecodeShrinks(once);
  }

  // ---------------------------------------------------------------- escape and unescape

  predicate EscapePlain(b: Byte) {
    IsUpper(b) || IsLower(b) || IsDigit(b) || b in {0x40, 0x2A, UNDERSCORE, PLUS, MINUS, DOT, SLASH}   // @ * _ + - . /
  }

  // escape, on a string of bytes.
  function Escape(b: Bytes): Str {
    if b == [] then [] else (if EscapePlain(b[0]) then [b[0]] else Escape3(b[0])) + Escape(b[1..])
  }

  // The unit that a %uXXXX escape at the front of s stands for, or -1.
  function HexUnit(s: Str): (v: int)
    ensures -1 <= v < 0x10000
    ensures v >= 0 ==> |s| >= 6
  {
    if |s| < 6 || s[0] != PERCENT || s[1] != 0x75 || exists i :: 2 <= i < 6 && HexValue(s[i]) < 0 then -1
    else HexValue(s[2]) * 4096 + HexValue(s[3]) * 256 + HexValue(s[4]) * 16 + HexValue(s[5])
  }

  function Unescape(s: Str): Str
    decreases |s|
  {
    if s == [] then []
    else if HexUnit(s) >= 0 then [HexUnit(s)] + Unescape(s[6..])
    else if HexByte(s) >= 0 then [HexByte(s)] + Unescape(s[3..])
    else [s[0]] + Unescape(s[1..])
  }

  lemma {:induction false} UnescapeOfEscapes(b: Bytes, rest: Str)
    ensures Unescape(Escapes(b) + rest) == b + Unescape(rest)
  {
    if b == [] {
      assert Escapes(b) + rest == rest && b + Unescape(rest) == Unescape(rest);
    } else {
      UnescapeOfEscapes(b[1..], rest);
      Associative(Escape3(b[0]), Escapes(b[1..]), rest);
      UnescapeOne(b[0], Escapes(b[1..]) + rest);
      Associative([b[0]], b[1..], Unescape(rest));
      assert b == [b[0]] + b[1..];
    }
  }

  lemma UnescapeOne(b: Byte, rest: Str)
    ensures Unescape(Escape3(b) + rest) == [b] + Unescape(rest)
  {
    var s := Escape3(b) + rest;
    HexByteOfEscape(b, rest);
    assert s[1] == HexUpper(b / 16) != 0x75;
    assert s[3..] == rest;
  }

  /** unescape(encodeURIComponent(s)) is the UTF-8 form of s, byte for byte. */
  lemma {:induction false} UnescapeEncode(s: Str)
    requires EncodeURIComponent(s).Some?
    ensures Unescape(EncodeURIComponent(s).value) == Utf8.Encode(s)
    decreases |s|
  {
    if s != [] {
      var rest := s[Utf8.Width(s)..];
      var e := EncodeURIComponent(s).value;
      UnescapeEncode(rest);
      if Unreserved(s[0]) {
        assert e[1..] == EncodeURIComponent(rest).value;
        assert e[0] != PERCENT;
      } else {
        UnescapeOfEscapes(Utf8.EncodePoint(Utf8.FirstPoint(s)), EncodeURIComponent(rest).value);
      }
    }
  }

  predicate AllEscaped(b: Bytes) {
    forall i :: 0 <= i < |b| ==> !EscapePlain(b[i])
  }

  lemma {:induction false} EscapeOfEscaped(b: Bytes, rest: Bytes)
    requires AllEscaped(b)
    ensures Escape(b + rest) == Escapes(b) + Escape(rest)
  {
    if b == [] {
      assert b + rest == rest && Escapes(b) + Escape(rest) == Escape(rest);
    } else {
      assert (b + rest)[1..] == b[1..] + rest;
      EscapeOfEscaped(b[1..], rest);
    }
  }

  // n escapes can be read off an escaped string only from n escaped bytes.
  lemma {:induction false} GroupOfEscape(b: Bytes, n: nat)
    ensures Group(Escape(b), n).Some? ==> n <= |b| && AllEscaped(b[..n])
  {
    if n > 0 && Group(Escape(b), n).Some? {
      var s := Escape(b);
      assert b != [] && !EscapePlain(b[0]);
      assert s[3..] == Escape(b[1..]);
      GroupOfEscape(b[1..], n - 1);
      assert b[..n] == [b[0]] + b[1..][..n - 1];
    }
  }

  lemma NoneOfGroup(s: Str, n: nat)
    requires s != [] && s[0] == PERCENT && HexByte(s) >= 0 && n == Utf8.Announced(HexByte(s)) && n > 0
    requires Group(s, n).None?
    ensures DecodeURIComponent(s).None?
  {
  }

  /** decodeURIComponent(escape(b)) decodes b as UTF-8, and fails where that fails. */
  lemma {:induction false} DecodeEscape(b: Bytes)
    ensures DecodeURIComponent(Escape(b)) == Utf8.Decode(b)
    decreases |b|
  {
    if b != [] {
      var s, n := Escape(b), Utf8.Announced(b[0]);
      if EscapePlain(b[0]) {
        assert s[1..] == Escape(b[1..]);
        assert b[..1] == [b[0]];
        DecodeEscape(b[1..]);
      } else {
        assert s == Escape3(b[0]) + Escape(b[1..]);
        HexByteOfEscape(b[0], Escape(b[1..]));
        if n > 0 {
          if n <= |b| && AllEscaped(b[..n]) {
            assert b == b[..n] + b[n..];
            EscapeOfEscaped(b[..n], b[n..]);
            DecodeOfGroup(b[..n], Escape(b[n..]));
            DecodeEscape(b[n..]);
          } else {
            GroupOfEscape(b, n);
            NoneOfGroup(s, n);
            PlainIsNoTail(b, n);
          }
        }
      }
    }
  }

  lemma PlainIsNoTail(b: Bytes, n: nat)
    requires b != [] && !EscapePlain(b[0]) && 1 <= n <= 4 && (n > |b| || !AllEscaped(b[..n]))
    ensures n <= |b| ==> Utf8.Point(b[..n]) == -1
  {
    if n <= |b| {
      var i :| 0 <= i < n && EscapePlain(b[..n][i]);
      assert !Utf8.IsTail(b[..n][i]) && i >= 1;
    }
  }
}
