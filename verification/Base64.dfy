/** Base64 (sections 4 and 5 of RFC 4648): the encoder and the two decoders the code relies on. */
module Base64 {
  import opened Basics
  import opened Text

  type Sextet = v: int | 0 <= v < 64

  function Symbol(v: Sextet): Byte {
    if v < 26 then 0x41 + v
    else if v < 52 then 0x61 + v - 26
    else if v < 62 then 0x30 + v - 52
    else if v == 62 then PLUS
    else SLASH
  }

  // The value of a symbol of the standard alphabet, or -1.
  function StandardValue(u: Unit): int
    ensures -1 <= StandardValue(u) < 64
  {
    if IsUpper(u) then u - 0x41
    else if IsLower(u) then u - 0x61 + 26
    else if IsDigit(u) then u - 0x30 + 52
    else if u == PLUS then 62
    else if u == SLASH then 63
    else -1
  }

  // Node's decoder also takes the URL-safe alphabet.
  function NodeValue(u: Unit): int
    ensures -1 <= NodeValue(u) < 64
  {
    if u == MINUS then 62 else if u == UNDERSCORE then 63 else StandardValue(u)
  }

  function Sextets(b: Bytes): seq<Sextet> {
    if |b| == 0 then []
    else if |b| == 1 then Pair(b[0])
    else if |b| == 2 then Triple(b[0], b[1])
    else Quad(b[0], b[1], b[2]) + Sextets(b[3..])
  }

  // The sextets of one, two and three bytes.
  function Pair(x: Byte): (v: seq<Sextet>)
    ensures |v| == 2
  {
    [x / 4, x % 4 * 16]
  }

  function Triple(x: Byte, y: Byte): (v: seq<Sextet>)
    ensures |v| == 3
  {
    [x / 4, x % 4 * 16 + y / 16, y % 16 * 4]
  }

  function Quad(x: Byte, y: Byte, z: Byte): (v: seq<Sextet>)
    ensures |v| == 4
  {
    [x / 4, x % 4 * 16 + y / 16, y % 16 * 4 + z / 64, z % 64]
  }

  // The bytes that neighbouring sextets make.
  function First(v: int, w: int): Byte
    requires 0 <= v < 64 && 0 <= w < 64
  {
    v * 4 + w / 16
  }

  function Second(v: int, w: int): Byte
    requires 0 <= v < 64 && 0 <= w < 64
  {
    v % 16 * 16 + w / 4
  }

  function Third(v: int, w: int): Byte
    requires 0 <= v < 64 && 0 <= w < 64
  {
    v % 4 * 64 + w
  }

  // Four sextets at a time; bits that do not fill a byte are dropped.
  function Octets(v: seq<Sextet>): Bytes {
    if |v| < 2 then []
    else if |v| == 2 then [First(v[0], v[1])]
    else if |v| == 3 then [First(v[0], v[1]), Second(v[1], v[2])]
    else [First(v[0], v[1]), Second(v[1], v[2]), Third(v[2], v[3])] + Octets(v[4..])
  }

  function Symbols(v: seq<Sextet>): Str {
    if v == [] then [] else [Symbol(v[0])] + Symbols(v[1..])
  }

  function Padding(n: nat): Str {
    if n % 3 == 0 then [] else if n % 3 == 1 then [EQUALS, EQUALS] else [EQUALS]
  }

  function Encode(b: Bytes): Str {
    Symbols(Sextets(b)) + Padding(|b|)
  }

  // Buffer.from(s, "base64"): characters of no alphabet are skipped.
  function NodeSextets(s: Str): seq<Sextet> {
    if s == [] then []
    else (if NodeValue(s[0]) >= 0 then [NodeValue(s[0])] else []) + NodeSextets(s[1..])
  }

  function NodeDecode(s: Str): Bytes {
    Octets(NodeSextets(s))
  }

  // atob: white space goes, then at most two pad characters, then everything must be a symbol.
  function DropSpace(s: Str): Str {
    if s == [] then []
    else (if s[0] in {TAB, LF, FF, CR, SPACE} then [] else [s[0]]) + DropSpace(s[1..])
  }

  function DropPads(s: Str): Str {
    if |s| % 4 != 0 || |s| == 0 || s[|s| - 1] != EQUALS then s
    else if s[|s| - 2] != EQUALS then s[..|s| - 1]
    else s[..|s| - 2]
  }

  function StrictSextets(s: Str): Option<seq<Sextet>> {
    if s == [] then Some([])
    else if StandardValue(s[0]) < 0 then None
    else
      var tail := StrictSextets(s[1..]);
      if tail.None? then None else Some([StandardValue(s[0])] + tail.value)
  }

  function Atob(s: Str): Option<Bytes> {
    var t := DropPads(DropSpace(s));
    if |t| % 4 == 1 then None
    else
      var v := StrictSextets(t);
      if v.None? then None else Some(Octets(v.value))
  }

  // ---------------------------------------------------------------- round trips

  lemma OctetsOfQuad(x: Byte, y: Byte, z: Byte, v: seq<Sextet>)
    ensures Octets(Quad(x, y, z) + v) == [x, y, z] + Octets(v)
  {
    var q := Quad(x, y, z);
    assert First(q[0], q[1]) == x && Second(q[1], q[2]) == y && Third(q[2], q[3]) == z;
    assert (q + v)[4..] == v;
  }

  lemma OctetsOfPair(x: Byte)
    ensures Octets(Pair(x)) == [x]
  {
    var v := Pair(x);
    assert First(v[0], v[1]) == x;
  }

  lemma OctetsOfTriple(x: Byte, y: Byte)
    ensures Octets(Triple(x, y)) == [x, y]
  {
    var v := Triple(x, y);
    assert First(v[0], v[1]) == x && Second(v[1], v[2]) == y;
  }

  lemma {:induction false} OctetsOfSextets(b: Bytes)
    ensures Octets(Sextets(b)) == b
  {
    if |b| >= 3 {
      OctetsOfSextets(b[3..]);
      OctetsOfQuad(b[0], b[1], b[2], Sextets(b[3..]));
      assert b == [b[0], b[1], b[2]] + b[3..];
    } else if |b| == 2 {
      OctetsOfTriple(b[0], b[1]);
      assert b == [b[0], b[1]];
    } else if |b| == 1 {
      OctetsOfPair(b[0]);
      assert b == [b[0]];
    }
  }

  // How many sextets stand after the last full group of four.
  function Rest(n: nat): nat {
    if n % 3 == 0 then 0 else n % 3 + 1
  }

  lemma {:induction false} SextetsLength(b: Bytes)
    ensures |Sextets(b)| % 4 == Rest(|b|)
  {
    if |b| >= 3 {
      SextetsLength(b[3..]);
      RestPeriodic(|Sextets(b[3..])|, |b| - 3);
    }
  }

  lemma RestPeriodic(m: nat, n: nat)
    requires m % 4 == Rest(n)
    ensures (4 + m) % 4 == Rest(n + 3)
  {
  }

  lemma {:induction false} SymbolsLength(v: seq<Sextet>)
    ensures |Symbols(v)| == |v|
    ensures forall i :: 0 <= i < |v| ==> Symbols(v)[i] == Symbol(v[i])
  {
    if v != [] { SymbolsLength(v[1..]); }
  }

  lemma {:induction false} NodeSextetsConcat(s: Str, t: Str)
    ensures NodeSextets(s + t) == NodeSextets(s) + NodeSextets(t)
  {
    if s == [] {
      assert s + t == t;
    } else {
      assert (s + t)[1..] == s[1..] + t && (s + t)[0] == s[0];
      NodeSextetsConcat(s[1..], t);
      Associative(if NodeValue(s[0]) >= 0 then [NodeValue(s[0])] else [], NodeSextets(s[1..]), NodeSextets(t));
    }
  }

  lemma {:induction false} NodeSextetsOfSymbols(v: seq<Sextet>)
    ensures NodeSextets(Symbols(v)) == v
  {
    if v != [] {
      assert Symbols(v)[1..] == Symbols(v[1..]);
      NodeSextetsOfSymbols(v[1..]);
    }
  }

  lemma PaddingSkipped(n: nat)
    ensures NodeSextets(Padding(n)) == []
  {
    var pad: Str := [EQUALS];
    assert pad[1..] == [];
    assert NodeSextets(pad) == [];
    var pads: Str := [EQUALS, EQUALS];
    assert pads[1..] == pad;
    assert NodeSextets(pads) == [];
  }

  /** Node decodes every encoding back, padding and all. */
  lemma NodeDecodeInverts(b: Bytes)
    ensures NodeSextets(Encode(b)) == Sextets(b)
    ensures NodeDecode(Encode(b)) == b
  {
    var v := Sextets(b);
    NodeSextetsConcat(Symbols(v), Padding(|b|));
    NodeSextetsOfSymbols(v);
    PaddingSkipped(|b|);
    OctetsOfSextets(b);
  }

  // Characters of no alphabet can be put in anywhere.
  lemma {:induction false} EscapedSlashesSkipped(s: Str)
    ensures NodeSextets(ReplaceAll(s, SLASH, [BACKSLASH, SLASH])) == NodeSextets(s)
  {
    if s != [] {
      var head: Str := if s[0] == SLASH then [BACKSLASH, SLASH] else [s[0]];
      EscapedSlashesSkipped(s[1..]);
      NodeSextetsConcat(head, ReplaceAll(s[1..], SLASH, [BACKSLASH, SLASH]));
      NodeSextetsConcat([s[0]], s[1..]);
      assert s == [s[0]] + s[1..];
      var slash: Str := [SLASH];
      var both: Str := [BACKSLASH, SLASH];
      assert both[1..] == slash;
      assert NodeSextets(both) == NodeSextets(slash);
    }
  }

  // ---------------------------------------------------------------- the browser's decoder

  // b64Decode up to the bytes: URL-safe symbols are mapped back and the padding is completed.
  function Normalized(s: Str): Str {
    ReplaceAll(ReplaceAll(s, MINUS, [PLUS]), UNDERSCORE, [SLASH])
  }

  function Completed(s: Str): Str {
    s + match (4 - |s| % 4) % 4
        case 0 => []
        case 1 => [EQUALS]
        case 2 => [EQUALS, EQUALS]
        case _ => [EQUALS, EQUALS, EQUALS]
  }

  function BrowserDecode(s: Str): Option<Bytes> {
    Atob(Completed(Normalized(s)))
  }

  // The URL-safe spelling of an encoding.
  function UrlSafe(s: Str): Str {
    ReplaceAll(ReplaceAll(s, PLUS, [MINUS]), SLASH, [UNDERSCORE])
  }

  lemma {:induction false} ReplaceOne(s: Str, c: Unit, d: Unit)
    ensures |ReplaceAll(s, c, [d])| == |s|
    ensures forall i :: 0 <= i < |s| ==> ReplaceAll(s, c, [d])[i] == if s[i] == c then d else s[i]
  {
    if s != [] { ReplaceOne(s[1..], c, d); }
  }

  lemma {:induction false} StrictOfSymbols(v: seq<Sextet>)
    ensures StrictSextets(Symbols(v)) == Some(v)
  {
    if v != [] {
      assert Symbols(v)[1..] == Symbols(v[1..]);
      StrictOfSymbols(v[1..]);
      assert v == [v[0]] + v[1..];
    }
  }

  lemma {:induction false} NothingToDrop(s: Str)
    requires forall i :: 0 <= i < |s| ==> s[i] == EQUALS || StandardValue(s[i]) >= 0
    ensures DropSpace(s) == s
  {
    if s != [] { NothingToDrop(s[1..]); }
  }

  function NormalUnit(u: Unit): Unit {
    if u == MINUS then PLUS else if u == UNDERSCORE then SLASH else u
  }

  function UrlSafeUnit(u: Unit): Unit {
    if u == PLUS then MINUS else if u == SLASH then UNDERSCORE else u
  }

  lemma NormalizedAt(s: Str)
    ensures |Normalized(s)| == |s| && forall i :: 0 <= i < |s| ==> Normalized(s)[i] == NormalUnit(s[i])
  {
    ReplaceOne(s, MINUS, PLUS);
    ReplaceOne(ReplaceAll(s, MINUS, [PLUS]), UNDERSCORE, SLASH);
  }

  lemma UrlSafeAt(s: Str)
    ensures |UrlSafe(s)| == |s| && forall i :: 0 <= i < |s| ==> UrlSafe(s)[i] == UrlSafeUnit(s[i])
  {
    ReplaceOne(s, PLUS, MINUS);
    ReplaceOne(ReplaceAll(s, PLUS, [MINUS]), SLASH, UNDERSCORE);
  }

  lemma NormalOfSymbol(v: Sextet)
    ensures NormalUnit(Symbol(v)) == Symbol(v) && NormalUnit(UrlSafeUnit(Symbol(v))) == Symbol(v)
  {
  }

  // Either alphabet, normalised, is the standard spelling; padding passes through.
  lemma NormalizedSymbols(s: Str, v: seq<Sextet>, pads: Str)
    requires s == Symbols(v) || s == UrlSafe(Symbols(v))
    requires forall i :: 0 <= i < |pads| ==> pads[i] == EQUALS
    ensures Normalized(s + pads) == Symbols(v) + pads
  {
    SymbolsLength(v);
    UrlSafeAt(Symbols(v));
    NormalizedAt(s + pads);
    forall i | 0 <= i < |s + pads|
      ensures Normalized(s + pads)[i] == (Symbols(v) + pads)[i]
    {
      if i < |v| { NormalOfSymbol(v[i]); }
    }
  }

  // Padding completes a group of four, and atob takes it off again.
  lemma PaddingCompletes(t: Str, n: nat)
    requires |t| % 4 == Rest(n)
    requires t != [] ==> t[|t| - 1] != EQUALS
    ensures Completed(t) == t + Padding(n) && Completed(t + Padding(n)) == t + Padding(n)
    ensures DropPads(t + Padding(n)) == t
  {
    assert t + [] == t;
  }

  lemma SymbolsStandard(v: seq<Sextet>)
    ensures forall i :: 0 <= i < |Symbols(v)| ==> StandardValue(Symbols(v)[i]) >= 0 && Symbols(v)[i] != EQUALS
  {
    SymbolsLength(v);
  }

  // Decoding sextets spelled in either alphabet, with the padding that n bytes take or without.
  lemma BrowserDecodeSymbols(v: seq<Sextet>, n: nat, s: Str)
    requires |v| % 4 == Rest(n)
    requires s == Symbols(v) || s == UrlSafe(Symbols(v))
    ensures BrowserDecode(s) == Some(Octets(v))
    ensures BrowserDecode(s + Padding(n)) == Some(Octets(v))
  {
    var t := Symbols(v);
    SymbolsLength(v);
    SymbolsStandard(v);
    NormalizedSymbols(s, v, []);
    NormalizedSymbols(s, v, Padding(n));
    assert s + [] == s && t + [] == t;
    PaddingCompletes(t, n);
    AtobOfSymbols(v, n);
  }

  lemma AtobOfSymbols(v: seq<Sextet>, n: nat)
    requires |v| % 4 == Rest(n)
    ensures Atob(Symbols(v) + Padding(n)) == Some(Octets(v))
  {
    var t := Symbols(v);
    SymbolsLength(v);
    SymbolsStandard(v);
    NothingToDrop(t + Padding(n));
    PaddingCompletes(t, n);
    StrictOfSymbols(v);
  }

  /**
   The browser's decoder inverts the encoding of every byte string in the standard
   and in the URL-safe alphabet, with or without padding.
   */
  lemma {:induction false} BrowserDecodeInverts(b: Bytes, s: Str)
    requires s == Symbols(Sextets(b)) || s == UrlSafe(Symbols(Sextets(b)))
    ensures BrowserDecode(s) == Some(b)
    ensures BrowserDecode(s + Padding(|b|)) == Some(b)
  {
    SextetsLength(b);
    BrowserDecodeSymbols(Sextets(b), |b|, s);
    OctetsOfSextets(b);
  }
}
