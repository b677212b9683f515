/**
 JSON.stringify without white space and JSON.parse (RFC 8259; section 25.5 of ECMA-262).
 A number is kept as its token; an object as its members in order.
 */
module Json {
  import opened Basics
  import opened Text
  import Utf8

  datatype Value =
    | Null
    | Bool(b: bool)
    | Num(token: Str)
    | String(s: Str)
    | Array(items: Items)
    | Object(members: Members)

  datatype Items = NoItems | Item(head: Value, tail: Items)

  datatype Members = NoMembers | Member(key: Str, value: Value, rest: Members)

  // The value a property access finds: the last member of that name.
  function Get(ms: Members, key: Str): Option<Value> {
    match ms
    case NoMembers => None
    case Member(k, v, rest) =>
      var later := Get(rest, key);
      if later.Some? then later else if k == key then Some(v) else None
  }

  lemma GetHere(key: Str, v: Value, rest: Members)
    requires Get(rest, key) == None
    ensures Get(Member(key, v, rest), key) == Some(v)
  {
  }

  lemma GetLater(k: Str, v: Value, rest: Members, key: Str)
    requires k != key
    ensures Get(Member(k, v, rest), key) == Get(rest, key)
  {
  }

  // ---------------------------------------------------------------- tokens

  const NULL: Str := [0x6E, 0x75, 0x6C, 0x6C]
  const TRUE: Str := [0x74, 0x72, 0x75, 0x65]
  const FALSE: Str := [0x66, 0x61, 0x6C, 0x73, 0x65]
  const LBRACKET: Byte := 0x5B
  const RBRACKET: Byte := 0x5D
  const LBRACE: Byte := 0x7B
  const RBRACE: Byte := 0x7D

  predicate IsSpace(u: Unit) {
    u in {TAB, LF, CR, SPACE}
  }

  function SkipSpace(s: Str): (t: Str)
    ensures |t| <= |s|
  {
    if s != [] && IsSpace(s[0]) then SkipSpace(s[1..]) else s
  }

  predicate NumberChar(u: Unit) {
    IsDigit(u) || u in {PLUS, MINUS, DOT, 0x65, 0x45}
  }

  // How many number characters s begins with.
  function Span(s: Str): (n: nat)
    ensures n <= |s|
  {
    if s == [] || !NumberChar(s[0]) then 0 else 1 + Span(s[1..])
  }

  function Digits(s: Str): (n: nat)
    ensures n <= |s|
  {
    if s == [] || !IsDigit(s[0]) then 0 else 1 + Digits(s[1..])
  }

  // -? (0 | [1-9][0-9]*) (. [0-9]+)? ([eE] [+-]? [0-9]+)?
  predicate IsNumber(t: Str) {
    var t1 := if t != [] && t[0] == MINUS then t[1..] else t;
    var n := Digits(t1);
    && n > 0 && (t1[0] == 0x30 ==> n == 1)
    && IsFraction(t1[n..])
  }

  predicate IsFraction(t: Str) {
    if t != [] && t[0] == DOT then Digits(t[1..]) > 0 && IsExponent(t[1 + Digits(t[1..])..]) else IsExponent(t)
  }

  predicate IsExponent(t: Str) {
    t == [] || (t[0] in {0x65, 0x45} && IsSignedDigits(t[1..]))
  }

  predicate IsSignedDigits(t: Str) {
    var t1 := if t != [] && t[0] in {PLUS, MINUS} then t[1..] else t;
    t1 != [] && Digits(t1) == |t1|
  }

  // ---------------------------------------------------------------- stringify

  function Hex4(u: Unit): Str {
    [BACKSLASH, 0x75, HexLower(u / 4096), HexLower(u / 256 % 16), HexLower(u / 16 % 16), HexLower(u % 16)]
  }

  function EscapeUnit(u: Unit): Str {
    if u == QUOTE then [BACKSLASH, QUOTE]
    else if u == BACKSLASH then [BACKSLASH, BACKSLASH]
    else if u == 0x08 then [BACKSLASH, 0x62]
    else if u == FF then [BACKSLASH, 0x66]
    else if u == LF then [BACKSLASH, 0x6E]
    else if u == CR then [BACKSLASH, 0x72]
    else if u == TAB then [BACKSLASH, 0x74]
    else if u < 0x20 || 0xD800 <= u < 0xE000 then Hex4(u)
    else [u]
  }

  // A surrogate pair stands for itself, a lone surrogate is escaped.
  function EscapeString(s: Str): Str
    decreases |s|
  {
    if s == [] then []
    else if Utf8.StartsWithPair(s) then s[..2] + EscapeString(s[2..])
    else EscapeUnit(s[0]) + EscapeString(s[1..])
  }

  function Quote(s: Str): Str {
    [QUOTE] + EscapeString(s) + [QUOTE]
  }

  function Print(v: Value): Str {
    match v
    case Null => NULL
    case Bool(b) => if b then TRUE else FALSE
    case Num(token) => token
    case String(s) => Quote(s)
    case Array(items) => [LBRACKET] + PrintItems(items) + [RBRACKET]
    case Object(members) => [LBRACE] + PrintMembers(members) + [RBRACE]
  }

  function PrintItems(xs: Items): Str {
    match xs
    case NoItems => []
    case Item(v, tail) => Print(v) + (if tail.NoItems? then [] else [COMMA] + PrintItems(tail))
  }

  function PrintMembers(ms: Members): Str {
    match ms
    case NoMembers => []
    case Member(k, v, rest) =>
      Quote(k) + [COLON] + Print(v) + (if rest.NoMembers? then [] else [COMMA] + PrintMembers(rest))
  }

  // ---------------------------------------------------------------- parse

  function Hex4Value(s: Str): (v: int)
    requires |s| >= 4
    ensures -1 <= v < 0x10000
  {
    if HexValue(s[0]) < 0 || HexValue(s[1]) < 0 || HexValue(s[2]) < 0 || HexValue(s[3]) < 0 then -1
    else HexValue(s[0]) * 4096 + HexValue(s[1]) * 256 + HexValue(s[2]) * 16 + HexValue(s[3])
  }

  function SimpleEscape(u: Unit): int
    ensures -1 <= SimpleEscape(u) < 128
  {
    if u == QUOTE || u == BACKSLASH || u == SLASH then u
    else if u == 0x62 then 0x08
    else if u == 0x66 then FF
    else if u == 0x6E then LF
    else if u == 0x72 then CR
    else if u == 0x74 then TAB
    else -1
  }

  datatype Parsed<T> = Failed | Parsed(value: T, rest: Str)

  // One character inside quotes.
  function ParseUnit(s: Str): (r: Parsed<Unit>)
    ensures r.Parsed? ==> |r.rest| < |s|
  {
    if s == [] || s[0] < 0x20 || s[0] == QUOTE then Failed
    else if s[0] != BACKSLASH then Parsed(s[0], s[1..])
    else if |s| >= 2 && SimpleEscape(s[1]) >= 0 then Parsed(SimpleEscape(s[1]), s[2..])
    else if |s| >= 6 && s[1] == 0x75 && Hex4Value(s[2..6]) >= 0 then Parsed(Hex4Value(s[2..6]), s[6..])
    else Failed
  }

  // The rest of a string literal after its opening quote.
  function ParseChars(s: Str): (r: Parsed<Str>)
    ensures r.Parsed? ==> |r.rest| < |s|
    decreases |s|
  {
    if s != [] && s[0] == QUOTE then Parsed([], s[1..])
    else match ParseUnit(s)
      case Failed => Failed
      case Parsed(u, rest) =>
        match ParseChars(rest)
        case Failed => Failed
        case Parsed(us, rest') => Parsed([u] + us, rest')
  }

  function ParseValue(s: Str): (r: Parsed<Value>)
    ensures r.Parsed? ==> |r.rest| < |s|
    decreases |s|, 1
  {
    if s == [] then Failed
    else if IsSpace(s[0]) then ParseValue(s[1..])
    else if HasPrefix(s, NULL) then Parsed(Null, s[4..])
    else if HasPrefix(s, TRUE) then Parsed(Bool(true), s[4..])
    else if HasPrefix(s, FALSE) then Parsed(Bool(false), s[5..])
    else if s[0] == QUOTE then
      match ParseChars(s[1..])
      case Failed => Failed
      case Parsed(t, rest) => Parsed(String(t), rest)
    else if s[0] == LBRACKET then
      var t := SkipSpace(s[1..]);
      if t != [] && t[0] == RBRACKET then Parsed(Array(NoItems), t[1..])
      else match ParseItems(t)
        case Failed => Failed
        case Parsed(xs, rest) => Parsed(Array(xs), rest)
    else if s[0] == LBRACE then
      var t := SkipSpace(s[1..]);
      if t != [] && t[0] == RBRACE then Parsed(Object(NoMembers), t[1..])
      else match ParseMembers(t)
        case Failed => Failed
        case Parsed(ms, rest) => Parsed(Object(ms), rest)
    else if Span(s) > 0 && IsNumber(s[..Span(s)]) then Parsed(Num(s[..Span(s)]), s[Span(s)..])
    else Failed
  }

  // One or more items up to the closing bracket.
  function ParseItems(s: Str): (r: Parsed<Items>)
    ensures r.Parsed? ==> |r.rest| < |s|
    decreases |s|, 2
  {
    match ParseValue(s)
    case Failed => Failed
    case Parsed(v, rest) =>
      var t := SkipSpace(rest);
      if t != [] && t[0] == RBRACKET then Parsed(Item(v, NoItems), t[1..])
      else if t != [] && t[0] == COMMA then
        match ParseItems(t[1..])
        case Failed => Failed
        case Parsed(xs, rest') => Parsed(Item(v, xs), rest')
      else Failed
  }

  // One or more members up to the closing brace.
  function ParseMembers(s: Str): (r: Parsed<Members>)
    ensures r.Parsed? ==> |r.rest| < |s|
    decreases |s|, 2
  {
    var s1 := SkipSpace(s);
    if s1 == [] || s1[0] != QUOTE then Failed
    else match ParseChars(s1[1..])
      case Failed => Failed
      case Parsed(k, rest) =>
        var t := SkipSpace(rest);
        if t == [] || t[0] != COLON then Failed
        else ParseMember(k, t[1..])
  }

  function ParseMember(k: Str, s: Str): (r: Parsed<Members>)
    ensures r.Parsed? ==> |r.rest| < |s|
    decreases |s|, 2
  {
    match ParseValue(s)
    case Failed => Failed
    case Parsed(v, rest) =>
      var t := SkipSpace(rest);
      if t != [] && t[0] == RBRACE then Parsed(Member(k, v, NoMembers), t[1..])
      else if t != [] && t[0] == COMMA then
        match ParseMembers(t[1..])
        case Failed => Failed
        case Parsed(ms, rest') => Parsed(Member(k, v, ms), rest')
      else Failed
  }

  // JSON.parse; None: SyntaxError.
  function Parse(s: Str): Option<Value> {
    match ParseValue(s)
    case Failed => None
    case Parsed(v, rest) => if SkipSpace(rest) == [] then Some(v) else None
  }

  // ---------------------------------------------------------------- parse after print

  // Every number in the value is the token of some number.
  predicate Valid(v: Value) {
    match v
    case Num(token) => IsNumber(token)
    case Array(items) => ValidItems(items)
    case Object(members) => ValidMembers(members)
    case _ => true
  }

  predicate ValidItems(xs: Items) {
    xs.Item? ==> Valid(xs.head) && ValidItems(xs.tail)
  }

  predicate ValidMembers(ms: Members) {
    ms.Member? ==> Valid(ms.value) && ValidMembers(ms.rest)
  }

  lemma HexDigitValue(v: int)
    requires 0 <= v < 16
    ensures HexValue(HexLower(v)) == v
  {
  }

  lemma Nibbles(u: int)
    requires 0 <= u < 0x10000
    ensures u == u / 4096 * 4096 + u / 256 % 16 * 256 + u / 16 % 16 * 16 + u % 16
  {
    var a, b := u / 16, u / 256;
    assert u == a * 16 + u % 16;
    assert b == a / 16 && a == b * 16 + a % 16;
    assert u / 4096 == b / 16 && b == b / 16 * 16 + b % 16;
  }

  lemma Hex4Inverts(u: Unit)
    ensures Hex4Value(Hex4(u)[2..6]) == u
  {
    var t := Hex4(u)[2..6];
    assert t == [HexLower(u / 4096), HexLower(u / 256 % 16), HexLower(u / 16 % 16), HexLower(u % 16)];
    HexDigitValue(u / 4096);
    HexDigitValue(u / 256 % 16);
    HexDigitValue(u / 16 % 16);
    HexDigitValue(u % 16);
    Nibbles(u);
  }

  lemma ParseUnitOfHex4(u: Unit, rest: Str)
    ensures ParseUnit(Hex4(u) + rest) == Parsed(u, rest)
  {
    var t := Hex4(u) + rest;
    assert t[6..] == rest && t[2..6] == Hex4(u)[2..6];
    Hex4Inverts(u);
  }

  lemma ParseUnitOfPair(c: Unit, u: Unit, rest: Str)
    requires SimpleEscape(c) == u
    ensures ParseUnit([BACKSLASH, c] + rest) == Parsed(u, rest)
  {
    assert ([BACKSLASH, c] + rest)[2..] == rest;
  }

  lemma ParseUnitOfEscape(u: Unit, rest: Str)
    ensures ParseUnit(EscapeUnit(u) + rest) == Parsed(u, rest)
  {
    var e := EscapeUnit(u);
    if |e| == 1 {
      assert (e + rest)[1..] == rest;
    } else if |e| == 2 {
      ParseUnitOfPair(e[1], u, rest);
    } else {
      ParseUnitOfHex4(u, rest);
    }
  }

  lemma ParseCharsStep(t: Str, u: Unit, t1: Str, us: Str, rest: Str)
    requires ParseUnit(t) == Parsed(u, t1) && ParseChars(t1) == Parsed(us, rest)
    ensures ParseChars(t) == Parsed([u] + us, rest)
  {
  }

  lemma ParseUnitPlain(u: Unit, rest: Str)
    requires u >= 0x20 && u != QUOTE && u != BACKSLASH
    ensures ParseUnit([u] + rest) == Parsed(u, rest)
  {
    assert ([u] + rest)[1..] == rest;
  }

  lemma ParseCharsOfPair(pair: Str, t: Str, us: Str, rest: Str)
    requires |pair| == 2 && Utf8.StartsWithPair(pair) && ParseChars(t) == Parsed(us, rest)
    ensures ParseChars(pair + t) == Parsed(pair + us, rest)
  {
    ParseUnitPlain(pair[1], t);
    ParseCharsStep([pair[1]] + t, pair[1], t, us, rest);
    ParseUnitPlain(pair[0], [pair[1]] + t);
    ParseCharsStep([pair[0]] + ([pair[1]] + t), pair[0], [pair[1]] + t, [pair[1]] + us, rest);
    assert [pair[0]] + ([pair[1]] + t) == pair + t;
    assert [pair[0]] + ([pair[1]] + us) == pair + us;
  }

  lemma {:induction false} ParseCharsOfEscape(s: Str, rest: Str)
    ensures ParseChars(EscapeString(s) + [QUOTE] + rest) == Parsed(s, rest)
    decreases |s|
  {
    if s == [] {
      assert EscapeString(s) + [QUOTE] + rest == [QUOTE] + rest;
    } else if Utf8.StartsWithPair(s) {
      var t1 := EscapeString(s[2..]) + [QUOTE] + rest;
      Associative(s[..2], EscapeString(s[2..]), [QUOTE]);
      Associative(s[..2], EscapeString(s[2..]) + [QUOTE], rest);
      ParseCharsOfEscape(s[2..], rest);
      ParseCharsOfPair(s[..2], t1, s[2..], rest);
      assert s == s[..2] + s[2..];
    } else {
      var t1 := EscapeString(s[1..]) + [QUOTE] + rest;
      Associative(EscapeUnit(s[0]), EscapeString(s[1..]), [QUOTE]);
      Associative(EscapeUnit(s[0]), EscapeString(s[1..]) + [QUOTE], rest);
      ParseUnitOfEscape(s[0], t1);
      ParseCharsOfEscape(s[1..], rest);
      ParseCharsStep(EscapeUnit(s[0]) + t1, s[0], t1, s[1..], rest);
      assert s == [s[0]] + s[1..];
    }
  }

  // What may follow a value: nothing, or a character no number continues with.
  predicate Stops(s: Str) {
    s == [] || !NumberChar(s[0])
  }

  lemma {:induction false} DigitsSpan(t: Str)
    requires Digits(t) == |t|
    ensures Span(t) == |t|
  {
    if t != [] { DigitsSpan(t[1..]); }
  }

  lemma {:induction false} SpanSplit(t: Str, n: nat)
    requires n <= |t| && Span(t[..n]) == n && Span(t[n..]) == |t| - n
    ensures Span(t) == |t|
  {
    if n > 0 {
      assert t[1..][..n - 1] == t[..n][1..] && t[1..][n - 1..] == t[n..];
      SpanSplit(t[1..], n - 1);
    }
  }

  lemma {:induction false} DigitsPrefix(t: Str)
    ensures Span(t[..Digits(t)]) == Digits(t)
  {
    if t != [] && IsDigit(t[0]) {
      assert t[..Digits(t)][1..] == t[1..][..Digits(t[1..])];
      DigitsPrefix(t[1..]);
    }
  }

  lemma SpanCons(t: Str)
    requires t != [] && NumberChar(t[0]) && Span(t[1..]) == |t| - 1
    ensures Span(t) == |t|
  {
  }

  lemma ExponentSpan(t: Str)
    requires IsExponent(t)
    ensures Span(t) == |t|
  {
    if t != [] {
      var t1 := t[1..];
      if t1[0] in {PLUS, MINUS} {
        DigitsSpan(t1[1..]);
        SpanCons(t1);
      } else {
        DigitsSpan(t1);
      }
      SpanCons(t);
    }
  }

  lemma FractionSpan(t: Str)
    requires IsFraction(t)
    ensures Span(t) == |t|
  {
    if t != [] && t[0] == DOT {
      var t1 := t[1..];
      DigitsPrefix(t1);
      ExponentSpan(t[1 + Digits(t1)..]);
      assert t1[Digits(t1)..] == t[1 + Digits(t1)..];
      SpanSplit(t1, Digits(t1));
      SpanCons(t);
    } else {
      ExponentSpan(t);
    }
  }

  // A number token is all number characters and begins with a digit or a minus.
  lemma NumberSpan(t: Str)
    requires IsNumber(t)
    ensures Span(t) == |t| > 0 && (IsDigit(t[0]) || t[0] == MINUS)
  {
    var t1 := if t[0] == MINUS then t[1..] else t;
    DigitsPrefix(t1);
    FractionSpan(t1[Digits(t1)..]);
    SpanSplit(t1, Digits(t1));
    if t[0] == MINUS { SpanCons(t); }
  }

  lemma {:induction false} SpanStops(t: Str, rest: Str)
    requires Span(t) == |t| && Stops(rest)
    ensures Span(t + rest) == |t|
  {
    if t == [] {
      assert t + rest == rest;
    } else {
      assert (t + rest)[1..] == t[1..] + rest;
      SpanStops(t[1..], rest);
    }
  }

  // A printed value does not begin like white space or a closing bracket.
  lemma PrintStart(v: Value)
    requires Valid(v)
    ensures Print(v) != [] && !IsSpace(Print(v)[0]) && Print(v)[0] !in {RBRACKET, RBRACE, COMMA}
  {
    if v.Num? { NumberSpan(v.token); }
  }

  lemma ParseNumber(token: Str, rest: Str)
    requires IsNumber(token) && Stops(rest)
    ensures ParseValue(token + rest) == Parsed(Num(token), rest)
  {
    var t := token + rest;
    NumberSpan(token);
    SpanStops(token, rest);
    assert t[0] == token[0] && t[..|token|] == token && t[|token|..] == rest;
    NoWord(t);
  }

  lemma NoWord(t: Str)
    requires t != [] && t[0] !in {NULL[0], TRUE[0], FALSE[0]}
    ensures !HasPrefix(t, NULL) && !HasPrefix(t, TRUE) && !HasPrefix(t, FALSE)
  {
    assert |t| >= 4 ==> t[..4][0] == t[0];
    assert |t| >= 5 ==> t[..5][0] == t[0];
  }

  lemma ParseValueAtBrace(t: Str, ms: Members, rest: Str)
    requires t != [] && t[0] == QUOTE && ParseMembers(t) == Parsed(ms, rest)
    ensures ParseValue([LBRACE] + t) == Parsed(Object(ms), rest)
  {
    var u := [LBRACE] + t;
    NoWord(u);
    assert u[1..] == t;
    assert SkipSpace(t) == t;
  }

  lemma ParseValueAtQuote(t: Str)
    requires t != [] && t[0] == QUOTE
    ensures ParseValue(t) ==
            match ParseChars(t[1..]) case Failed => Failed case Parsed(u, rest) => Parsed(String(u), rest)
  {
    NoWord(t);
  }

  lemma ParseQuoted(s: Str, rest: Str)
    ensures ParseValue(Quote(s) + rest) == Parsed(String(s), rest)
  {
    var t := Quote(s) + rest;
    assert t[1..] == EscapeString(s) + [QUOTE] + rest;
    ParseCharsOfEscape(s, rest);
    ParseValueAtQuote(t);
  }

  lemma ParseWord(rest: Str)
    ensures ParseValue(NULL + rest) == Parsed(Null, rest)
    ensures ParseValue(TRUE + rest) == Parsed(Bool(true), rest)
    ensures ParseValue(FALSE + rest) == Parsed(Bool(false), rest)
  {
    assert (NULL + rest)[..4] == NULL && (NULL + rest)[4..] == rest;
    assert (TRUE + rest)[..4] == TRUE && (TRUE + rest)[4..] == rest;
    assert (FALSE + rest)[..5] == FALSE && (FALSE + rest)[5..] == rest;
    assert (TRUE + rest)[0] == TRUE[0] && !HasPrefix(TRUE + rest, NULL);
    assert (FALSE + rest)[0] == FALSE[0] && !HasPrefix(FALSE + rest, NULL) && !HasPrefix(FALSE + rest, TRUE);
  }

  /** A printed value in front of anything that ends it parses back to the value. */
  lemma {:induction false} ParsePrinted(v: Value, rest: Str)
    requires Valid(v) && Stops(rest)
    ensures ParseValue(Print(v) + rest) == Parsed(v, rest)
    decreases v, 1
  {
    match v
    case Null => ParseWord(rest);
    case Bool(_) => ParseWord(rest);
    case Num(token) => ParseNumber(token, rest);
    case String(s) => ParseQuoted(s, rest);
    case Array(items) => ParseArray(items, rest);
    case Object(members) => ParseObject(members, rest);
  }

  lemma {:induction false} ParseArray(xs: Items, rest: Str)
    requires ValidItems(xs)
    ensures ParseValue([LBRACKET] + PrintItems(xs) + [RBRACKET] + rest) == Parsed(Array(xs), rest)
    decreases xs, 1
  {
    var t := [LBRACKET] + PrintItems(xs) + [RBRACKET] + rest;
    var t1 := PrintItems(xs) + [RBRACKET] + rest;
    assert t[1..] == t1;
    NoWord(t);
    if xs.NoItems? {
      assert t1 == [RBRACKET] + rest;
      assert t1[1..] == rest;
    } else {
      PrintStart(xs.head);
      assert t1[0] == Print(xs.head)[0];
      ParsePrintedItems(xs, rest);
    }
  }

  lemma {:induction false} ParsePrintedItems(xs: Items, rest: Str)
    requires ValidItems(xs) && xs.Item?
    ensures ParseItems(PrintItems(xs) + [RBRACKET] + rest) == Parsed(xs, rest)
    decreases xs, 0
  {
    if xs.tail.NoItems? {
      var t := [RBRACKET] + rest;
      assert PrintItems(xs) + [RBRACKET] + rest == Print(xs.head) + t;
      ParsePrinted(xs.head, t);
      assert t[1..] == rest;
    } else {
      var t1 := PrintItems(xs.tail) + [RBRACKET] + rest;
      var t := [COMMA] + t1;
      assert PrintItems(xs) + [RBRACKET] + rest == Print(xs.head) + t;
      ParsePrinted(xs.head, t);
      assert t[1..] == t1;
      ParsePrintedItems(xs.tail, rest);
    }
  }

  lemma {:induction false} ParseObject(ms: Members, rest: Str)
    requires ValidMembers(ms)
    ensures ParseValue([LBRACE] + PrintMembers(ms) + [RBRACE] + rest) == Parsed(Object(ms), rest)
    decreases ms, 1
  {
    var t := [LBRACE] + PrintMembers(ms) + [RBRACE] + rest;
    var t1 := PrintMembers(ms) + [RBRACE] + rest;
    if ms.NoMembers? {
      NoWord(t);
      assert t[1..] == t1 == [RBRACE] + rest;
      assert t1[1..] == rest;
    } else {
      assert t1[0] == QUOTE;
      ParsePrintedMembers(ms, rest);
      ParseValueAtBrace(t1, ms, rest);
      assert t == [LBRACE] + t1;
    }
  }

  lemma ParseFirstMember(k: Str, p: Str, more: Str, rest: Str)
    ensures ParseMembers(Quote(k) + [COLON] + p + more + [RBRACE] + rest) == ParseMember(k, p + (more + [RBRACE] + rest))
  {
    var q := Quote(k) + [COLON];
    Associative(q + p, more, [RBRACE]);
    Associative(q + p, more + [RBRACE], rest);
    Associative(q, p, more + [RBRACE] + rest);
    ParseKey(k, p + (more + [RBRACE] + rest));
  }

  lemma LastMember(k: Str, v: Value, s: Str, rest: Str)
    requires ParseValue(s) == Parsed(v, [RBRACE] + rest)
    ensures ParseMember(k, s) == Parsed(Member(k, v, NoMembers), rest)
  {
    assert ([RBRACE] + rest)[1..] == rest;
  }

  lemma MoreMembers(k: Str, v: Value, s: Str, tail: Str, ms: Members, rest: Str)
    requires ParseValue(s) == Parsed(v, [COMMA] + tail) && ParseMembers(tail) == Parsed(ms, rest)
    ensures ParseMember(k, s) == Parsed(Member(k, v, ms), rest)
  {
    assert ([COMMA] + tail)[1..] == tail;
  }

  lemma {:induction false} ParsePrintedMembers(ms: Members, rest: Str)
    requires ValidMembers(ms) && ms.Member?
    ensures ParseMembers(PrintMembers(ms) + [RBRACE] + rest) == Parsed(ms, rest)
    decreases ms, 0
  {
    if ms.rest.NoMembers? {
      ParsePrinted(ms.value, [RBRACE] + rest);
      ParseLastMember(ms.key, ms.value, Print(ms.value), rest);
    } else {
      ParsePrinted(ms.value, [COMMA] + (PrintMembers(ms.rest) + [RBRACE] + rest));
      ParsePrintedMembers(ms.rest, rest);
      ParseNextMember(ms.key, ms.value, Print(ms.value), ms.rest, PrintMembers(ms.rest), rest);
    }
  }

  lemma ParseLastMember(k: Str, v: Value, p: Str, rest: Str)
    requires ParseValue(p + ([RBRACE] + rest)) == Parsed(v, [RBRACE] + rest)
    ensures ParseMembers(Quote(k) + [COLON] + p + [] + [RBRACE] + rest) == Parsed(Member(k, v, NoMembers), rest)
  {
    ParseFirstMember(k, p, [], rest);
    assert [] + [RBRACE] + rest == [RBRACE] + rest;
    LastMember(k, v, p + ([RBRACE] + rest), rest);
  }

  lemma ParseNextMember(k: Str, v: Value, p: Str, ms: Members, more: Str, rest: Str)
    requires ParseMembers(more + [RBRACE] + rest) == Parsed(ms, rest)
    requires ParseValue(p + ([COMMA] + (more + [RBRACE] + rest))) == Parsed(v, [COMMA] + (more + [RBRACE] + rest))
    ensures ParseMembers(Quote(k) + [COLON] + p + ([COMMA] + more) + [RBRACE] + rest) == Parsed(Member(k, v, ms), rest)
  {
    var tail := more + [RBRACE] + rest;
    ParseFirstMember(k, p, [COMMA] + more, rest);
    Associative([COMMA], more, [RBRACE]);
    Associative([COMMA], more + [RBRACE], rest);
    MoreMembers(k, v, p + ([COMMA] + tail), tail, ms, rest);
  }

  lemma ParseKey(k: Str, rest: Str)
    ensures ParseMembers(Quote(k) + [COLON] + rest) == ParseMember(k, rest)
  {
    var u := [COLON] + rest;
    var all := Quote(k) + [COLON] + rest;
    assert all[0] == QUOTE;
    assert all[1..] == EscapeString(k) + [QUOTE] + u;
    ParseCharsOfEscape(k, u);
    assert u[1..] == rest;
  }

  /** JSON.parse undoes JSON.stringify on every JSON value. */
  lemma ParseInverts(v: Value)
    requires Valid(v)
    ensures Parse(Print(v)) == Some(v)
  {
    ParsePrinted(v, []);
    assert Print(v) + [] == Print(v);
  }
}
