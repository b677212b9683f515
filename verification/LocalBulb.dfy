/** The string pipeline of localBulbCommand, from the property list to what the bulb reads. */
module LocalBulb {
  import opened Basics
  import opened Text
  import opened Json
  import Base64
  import C = WyzeCipher

  // replace(/\\\\/g, "\\"): each pair of backslashes, from the left, becomes one.
  function Collapse(s: Str): Str
    decreases |s|
  {
    if s == [] then []
    else if |s| >= 2 && s[0] == BACKSLASH && s[1] == BACKSLASH then [BACKSLASH] + Collapse(s[2..])
    else [s[0]] + Collapse(s[1..])
  }

  // toUpperCase on ASCII letters.
  function UpperCase(s: Str): Str {
    seq(|s|, i requires 0 <= i < |s| => if IsLower(s[i]) then s[i] - 32 else s[i])
  }

  const REQUEST: Str := Ascii("request")
  const SET_STATUS: Str := Ascii("set_status")
  const IS_SEND_QUEUE: Str := Ascii("isSendQueue")
  const CHARACTERISTICS: Str := Ascii("characteristics")
  const ZERO: Str := [0x30]

  function Characteristics(mac: Str, ts: Str, pid: Str, pvalue: Str): Value {
    Object(Member(Ascii("mac"), String(UpperCase(mac)),
           Member(Ascii("index"), String([0x31]),
           Timed(ts, pid, pvalue))))
  }

  function Timed(ts: Str, pid: Str, pvalue: Str): Members {
    Member(Ascii("ts"), Num(ts), Member(Ascii("plist"), Plist(pid, pvalue), NoMembers))
  }

  function Plist(pid: Str, pvalue: Str): Value {
    Array(Item(Object(Member(Ascii("pid"), String(pid), Member(Ascii("pvalue"), String(pvalue), NoMembers))), NoItems))
  }

  function Payload(characteristics: Str): Value {
    Object(Member(REQUEST, String(SET_STATUS),
           Member(IS_SEND_QUEUE, Num(ZERO),
           Member(CHARACTERISTICS, String(characteristics), NoMembers))))
  }

  // What is posted to the bulb; None: the key is refused.
  function Wire(aes: C.Aes, key: Str, v: Value): Option<Str> {
    var enc := C.WyzeEncrypt(aes, key, Print(v));
    if enc.None? then None else Some(Collapse(Print(Payload(enc.value))))
  }

  // ---------------------------------------------------------------- seven-bit values print clean

  predicate Clean(s: Str) {
    forall i :: 0 <= i < |s| ==> s[i] < 128 && s[i] >= 0x20
  }

  predicate SevenBitValue(v: Value) {
    match v
    case String(s) => SevenBit(s)
    case Array(items) => SevenBitItems(items)
    case Object(members) => SevenBitMembers(members)
    case _ => true
  }

  predicate SevenBitItems(xs: Items) {
    xs.Item? ==> SevenBitValue(xs.head) && SevenBitItems(xs.tail)
  }

  predicate SevenBitMembers(ms: Members) {
    ms.Member? ==> SevenBit(ms.key) && SevenBitValue(ms.value) && SevenBitMembers(ms.rest)
  }

  lemma {:induction false} EscapeClean(s: Str)
    requires SevenBit(s)
    ensures Clean(EscapeString(s))
    decreases |s|
  {
    if s != [] { EscapeClean(s[1..]); }
  }

  lemma {:induction false} SpanClean(t: Str)
    requires Span(t) == |t|
    ensures Clean(t)
  {
    if t != [] {
      SpanClean(t[1..]);
      assert forall i :: 1 <= i < |t| ==> t[i] == t[1..][i - 1];
    }
  }

  /** JSON text of seven-bit strings holds no control character, hence no \\x05. */
  lemma {:induction false} PrintClean(v: Value)
    requires Valid(v) && SevenBitValue(v)
    ensures Clean(Print(v))
  {
    match v
    case Null =>
    case Bool(_) =>
    case Num(token) =>
      NumberSpan(token);
      SpanClean(token);
    case String(s) => EscapeClean(s);
    case Array(items) => ItemsClean(items);
    case Object(members) => MembersClean(members);
  }

  lemma {:induction false} ItemsClean(xs: Items)
    requires ValidItems(xs) && SevenBitItems(xs)
    ensures Clean(PrintItems(xs))
  {
    if xs.Item? {
      PrintClean(xs.head);
      ItemsClean(xs.tail);
    }
  }

  lemma {:induction false} MembersClean(ms: Members)
    requires ValidMembers(ms) && SevenBitMembers(ms)
    ensures Clean(PrintMembers(ms))
  {
    if ms.Member? {
      EscapeClean(ms.key);
      PrintClean(ms.value);
      MembersClean(ms.rest);
    }
  }

  // ---------------------------------------------------------------- slashes and backslashes

  predicate Alphabetic(s: Str) {
    forall i :: 0 <= i < |s| ==> s[i] == EQUALS || Base64.StandardValue(s[i]) >= 0
  }

  lemma EncodedAlphabetic(b: Bytes)
    ensures Alphabetic(Base64.Encode(b)) && BACKSLASH !in Base64.Encode(b)
  {
    Base64.SymbolsStandard(Base64.Sextets(b));
  }

  lemma EscapeStep(c: Unit, t: Str)
    requires c < 0xD800
    ensures EscapeString([c] + t) == EscapeUnit(c) + EscapeString(t)
  {
    assert ([c] + t)[1..] == t;
  }

  lemma EscapeSymbol(c: Unit)
    requires c == EQUALS || Base64.StandardValue(c) >= 0
    ensures c < 128 && EscapeUnit(c) == [c]
  {
  }

  // Quoting doubles the backslash of each `\\/`.
  lemma {:induction false} EscapeSlashed(s: Str)
    requires Alphabetic(s)
    ensures EscapeString(ReplaceAll(s, SLASH, [BACKSLASH, SLASH])) == ReplaceAll(s, SLASH, [BACKSLASH, BACKSLASH, SLASH])
  {
    if s != [] {
      EscapeSlashed(s[1..]);
      EscapeHead(s[0], ReplaceAll(s[1..], SLASH, [BACKSLASH, SLASH]));
    }
  }

  lemma EscapeHead(c: Unit, tail: Str)
    requires c == EQUALS || Base64.StandardValue(c) >= 0
    ensures EscapeString((if c == SLASH then [BACKSLASH, SLASH] else [c]) + tail) ==
            (if c == SLASH then [BACKSLASH, BACKSLASH, SLASH] else [c]) + EscapeString(tail)
  {
    EscapeSymbol(c);
    EscapeStep(c, tail);
    if c == SLASH { EscapeTwo(tail, EscapeString(tail)); }
  }

  lemma EscapeTwo(tail: Str, rest: Str)
    requires EscapeString([SLASH] + tail) == [SLASH] + rest
    ensures EscapeString([BACKSLASH, SLASH] + tail) == [BACKSLASH, BACKSLASH, SLASH] + rest
  {
    EscapeStep(BACKSLASH, [SLASH] + tail);
    SlashesJoin(tail);
    SlashesJoin(rest);
  }

  lemma SlashesJoin(t: Str)
    ensures [BACKSLASH, SLASH] + t == [BACKSLASH] + ([SLASH] + t)
    ensures [BACKSLASH, BACKSLASH, SLASH] + t == [BACKSLASH, BACKSLASH] + ([SLASH] + t)
  {
  }

  lemma {:induction false} CollapsePlain(s: Str, t: Str)
    requires BACKSLASH !in s
    ensures Collapse(s + t) == s + Collapse(t)
  {
    if s == [] {
      assert s + t == t && s + Collapse(t) == Collapse(t);
    } else {
      assert (s + t)[1..] == s[1..] + t;
      CollapsePlain(s[1..], t);
      assert s == [s[0]] + s[1..];
    }
  }

  lemma CollapseHead(c: Unit, u: Str)
    requires c != BACKSLASH
    ensures Collapse((if c == SLASH then [BACKSLASH, BACKSLASH, SLASH] else [c]) + u) ==
            (if c == SLASH then [BACKSLASH, SLASH] else [c]) + Collapse(u)
  {
    CollapsePlain([c], u);
    if c == SLASH {
      var t := [BACKSLASH, BACKSLASH, SLASH] + u;
      assert t[2..] == [c] + u;
      assert [BACKSLASH] + ([c] + Collapse(u)) == [BACKSLASH, SLASH] + Collapse(u);
    }
  }

  // Collapsing halves it again.
  lemma {:induction false} CollapseSlashed(s: Str, t: Str)
    requires BACKSLASH !in s
    ensures Collapse(ReplaceAll(s, SLASH, [BACKSLASH, BACKSLASH, SLASH]) + t) ==
            ReplaceAll(s, SLASH, [BACKSLASH, SLASH]) + Collapse(t)
  {
    if s == [] {
      CollapsePlain([], t);
    } else {
      var doubled := ReplaceAll(s[1..], SLASH, [BACKSLASH, BACKSLASH, SLASH]);
      var single := ReplaceAll(s[1..], SLASH, [BACKSLASH, SLASH]);
      CollapseSlashed(s[1..], t);
      CollapseHead(s[0], doubled + t);
      Associative(if s[0] == SLASH then [BACKSLASH, BACKSLASH, SLASH] else [s[0]], doubled, t);
      Associative(if s[0] == SLASH then [BACKSLASH, SLASH] else [s[0]], single, Collapse(t));
    }
  }

  // And JSON reads `\\/` as a slash.
  lemma {:induction false} ParseSlashed(s: Str, rest: Str)
    requires Alphabetic(s)
    ensures ParseChars(ReplaceAll(s, SLASH, [BACKSLASH, SLASH]) + [QUOTE] + rest) == Parsed(s, rest)
  {
    if s == [] {
      assert ReplaceAll(s, SLASH, [BACKSLASH, SLASH]) + [QUOTE] + rest == [QUOTE] + rest;
    } else {
      var head: Str := if s[0] == SLASH then [BACKSLASH, SLASH] else [s[0]];
      var tail := ReplaceAll(s[1..], SLASH, [BACKSLASH, SLASH]) + [QUOTE] + rest;
      ParseSlashed(s[1..], rest);
      Associative(head, ReplaceAll(s[1..], SLASH, [BACKSLASH, SLASH]), [QUOTE]);
      Associative(head, ReplaceAll(s[1..], SLASH, [BACKSLASH, SLASH]) + [QUOTE], rest);
      ParseSymbol(s[0], tail);
      ParseCharsStep(head + tail, s[0], tail, s[1..], rest);
      assert s == [s[0]] + s[1..];
    }
  }

  lemma ParseSymbol(c: Unit, tail: Str)
    requires c == EQUALS || Base64.StandardValue(c) >= 0
    ensures ParseUnit((if c == SLASH then [BACKSLASH, SLASH] else [c]) + tail) == Parsed(c, tail)
  {
    if c == SLASH { ParseUnitOfPair(SLASH, SLASH, tail); } else { ParseUnitPlain(c, tail); }
  }

  // ---------------------------------------------------------------- the payload on the wire

  predicate Word(s: Str) {
    forall i :: 0 <= i < |s| ==> IsUpper(s[i]) || IsLower(s[i]) || s[i] == UNDERSCORE
  }

  lemma {:induction false} EscapeWord(s: Str)
    requires Word(s)
    ensures EscapeString(s) == s
  {
    if s != [] {
      EscapeWord(s[1..]);
      assert s == [s[0]] + s[1..];
    }
  }

  lemma QuoteWord(s: Str)
    requires Word(s)
    ensures BACKSLASH !in Quote(s)
  {
    EscapeWord(s);
  }

  // The payload's text around the (escaped) encrypted text x, member by member from the last.
  function Third(x: Str): Str {
    Quote(CHARACTERISTICS) + [COLON] + ([QUOTE] + (x + [QUOTE, RBRACE]))
  }

  function Second(x: Str): Str {
    Quote(IS_SEND_QUEUE) + [COLON] + (ZERO + ([COMMA] + Third(x)))
  }

  function First(x: Str): Str {
    Quote(REQUEST) + [COLON] + (Quote(SET_STATUS) + ([COMMA] + Second(x)))
  }

  lemma Shift(q: Str, v: Str, more: Str, z: Str)
    ensures q + v + ([COMMA] + more) + z == q + (v + ([COMMA] + (more + z)))
    ensures q + ([QUOTE] + v + [QUOTE]) + [] + [RBRACE] == q + ([QUOTE] + (v + [QUOTE, RBRACE]))
    ensures [LBRACE] + more + [RBRACE] == [LBRACE] + (more + [RBRACE])
  {
  }

  lemma PrintPayload(e: Str)
    ensures Print(Payload(e)) == [LBRACE] + First(EscapeString(e))
  {
    var m3 := Member(CHARACTERISTICS, String(e), NoMembers);
    var m2 := Member(IS_SEND_QUEUE, Num(ZERO), m3);
    var m1 := Member(REQUEST, String(SET_STATUS), m2);
    Shift(Quote(CHARACTERISTICS) + [COLON], EscapeString(e), [], []);
    assert PrintMembers(m3) + [RBRACE] == Third(EscapeString(e));
    Shift(Quote(IS_SEND_QUEUE) + [COLON], ZERO, PrintMembers(m3), [RBRACE]);
    assert PrintMembers(m2) + [RBRACE] == Second(EscapeString(e));
    Shift(Quote(REQUEST) + [COLON], Quote(SET_STATUS), PrintMembers(m2), [RBRACE]);
    assert PrintMembers(m1) + [RBRACE] == First(EscapeString(e));
    Shift([], [], PrintMembers(m1), []);
  }

  lemma CollapseMember(k: Str, v: Str, t: Str)
    requires Word(k) && BACKSLASH !in v
    ensures Collapse(Quote(k) + [COLON] + (v + t)) == Quote(k) + [COLON] + (v + Collapse(t))
  {
    QuoteWord(k);
    CollapsePlain(Quote(k) + [COLON], v + t);
    CollapsePlain(v, t);
  }

  lemma CollapseMore(k: Str, v: Str, t: Str)
    requires Word(k) && BACKSLASH !in v
    ensures Collapse(Quote(k) + [COLON] + (v + ([COMMA] + t))) == Quote(k) + [COLON] + (v + ([COMMA] + Collapse(t)))
  {
    CollapsePlain([COMMA], t);
    CollapseMember(k, v, [COMMA] + t);
  }

  lemma Words()
    ensures Word(REQUEST) && Word(SET_STATUS) && Word(IS_SEND_QUEUE) && Word(CHARACTERISTICS)
  {
  }

  lemma CollapsePayload(x: Str, y: Str)
    requires Collapse(x + [QUOTE, RBRACE]) == y + [QUOTE, RBRACE]
    ensures Collapse([LBRACE] + First(x)) == [LBRACE] + First(y)
  {
    Words();
    CollapseMember(CHARACTERISTICS, [QUOTE], x + [QUOTE, RBRACE]);
    CollapseMore(IS_SEND_QUEUE, ZERO, Third(x));
    QuoteWord(SET_STATUS);
    CollapseMore(REQUEST, Quote(SET_STATUS), Second(x));
    CollapsePlain([LBRACE], First(x));
  }

  // A text whose last member reads back as s parses to the payload around s.
  lemma ParsePayload(x: Str, s: Str)
    requires ParseChars(x + [QUOTE, RBRACE]) == Parsed(s, [RBRACE])
    ensures Parse([LBRACE] + First(x)) == Some(Payload(s))
  {
    var m3 := Member(CHARACTERISTICS, String(s), NoMembers);
    var m2 := Member(IS_SEND_QUEUE, Num(ZERO), m3);
    var m1 := Member(REQUEST, String(SET_STATUS), m2);
    ParseThird(x, s);
    assert IsNumber(ZERO);
    ParseNumber(ZERO, [COMMA] + Third(x));
    ParseMore(IS_SEND_QUEUE, Num(ZERO), ZERO + ([COMMA] + Third(x)), Third(x), m3);
    ParseQuoted(SET_STATUS, [COMMA] + Second(x));
    ParseMore(REQUEST, String(SET_STATUS), Quote(SET_STATUS) + ([COMMA] + Second(x)), Second(x), m2);
    ParseValueAtBrace(First(x), m1, []);
  }

  lemma ParseThird(x: Str, s: Str)
    requires ParseChars(x + [QUOTE, RBRACE]) == Parsed(s, [RBRACE])
    ensures ParseMembers(Third(x)) == Parsed(Member(CHARACTERISTICS, String(s), NoMembers), [])
  {
    var t := [QUOTE] + (x + [QUOTE, RBRACE]);
    assert t[1..] == x + [QUOTE, RBRACE];
    ParseValueAtQuote(t);
    assert [RBRACE] + [] == [RBRACE];
    LastMember(CHARACTERISTICS, String(s), t, []);
    ParseKey(CHARACTERISTICS, t);
  }

  lemma ParseMore(k: Str, v: Value, t: Str, tail: Str, ms: Members)
    requires ParseValue(t) == Parsed(v, [COMMA] + tail)
    requires ParseMembers(tail) == Parsed(ms, [])
    ensures ParseMembers(Quote(k) + [COLON] + t) == Parsed(Member(k, v, ms), [])
  {
    MoreMembers(k, v, t, tail, ms, []);
    ParseKey(k, t);
  }

  // The base64 text of the encrypted characteristics.
  function Plain(aes: C.Aes, key: Str, v: Value): Str
    requires |key| == 16
  {
    Base64.Encode(C.CipherText(aes, key, Print(v)))
  }

  // What is posted: the payload around the base64 text with `\\/` for its slashes.
  lemma WireText(aes: C.Aes, key: Str, v: Value)
    requires |key| == 16
    ensures Wire(aes, key, v) == Some([LBRACE] + First(ReplaceAll(Plain(aes, key, v), SLASH, [BACKSLASH, SLASH])))
  {
    EncodedAlphabetic(C.CipherText(aes, key, Print(v)));
    CollapseQuoted(Plain(aes, key, v));
  }

  lemma CollapseQuoted(plain: Str)
    requires Alphabetic(plain) && BACKSLASH !in plain
    ensures var y := ReplaceAll(plain, SLASH, [BACKSLASH, SLASH]);
            Collapse(Print(Payload(y))) == [LBRACE] + First(y)
  {
    var x := ReplaceAll(plain, SLASH, [BACKSLASH, BACKSLASH, SLASH]);
    var y := ReplaceAll(plain, SLASH, [BACKSLASH, SLASH]);
    EscapeSlashed(plain);
    PrintPayload(y);
    CollapseSlashed(plain, [QUOTE, RBRACE]);
    CollapseClosing();
    CollapsePayload(x, y);
  }

  lemma CollapseClosing()
    ensures Collapse([QUOTE, RBRACE]) == [QUOTE, RBRACE]
  {
    CollapsePlain([QUOTE, RBRACE], []);
    assert [QUOTE, RBRACE] + [] == [QUOTE, RBRACE];
  }

  lemma WireParses(aes: C.Aes, key: Str, v: Value)
    requires |key| == 16
    ensures var w := Wire(aes, key, v);
            w.Some? && Parse(w.value) == Some(Payload(Plain(aes, key, v)))
  {
    WireText(aes, key, v);
    EncodedAlphabetic(C.CipherText(aes, key, Print(v)));
    ParseQuotedPlain(Plain(aes, key, v));
  }

  lemma ParseQuotedPlain(plain: Str)
    requires Alphabetic(plain)
    ensures Parse([LBRACE] + First(ReplaceAll(plain, SLASH, [BACKSLASH, SLASH]))) == Some(Payload(plain))
  {
    var y := ReplaceAll(plain, SLASH, [BACKSLASH, SLASH]);
    ParseSlashed(plain, [RBRACE]);
    assert y + [QUOTE] + [RBRACE] == y + [QUOTE, RBRACE];
    ParsePayload(y, plain);
  }

  // A set_status request, not queued, with these characteristics.
  predicate Asks(v: Value, characteristics: Str) {
    && v.Object?
    && Get(v.members, Ascii("request")) == Some(String(Ascii("set_status")))
    && Get(v.members, Ascii("isSendQueue")) == Some(Num([0x30]))
    && Get(v.members, Ascii("characteristics")) == Some(String(characteristics))
  }

  lemma PayloadNames(s: Str)
    ensures Asks(Payload(s), s)
  {
    assert |REQUEST| == 7 && |IS_SEND_QUEUE| == 11 && |CHARACTERISTICS| == 15;
    var m3 := Member(CHARACTERISTICS, String(s), NoMembers);
    var m2 := Member(IS_SEND_QUEUE, Num(ZERO), m3);
    GetHere(CHARACTERISTICS, String(s), NoMembers);
    GetLater(CHARACTERISTICS, String(s), NoMembers, IS_SEND_QUEUE);
    GetLater(CHARACTERISTICS, String(s), NoMembers, REQUEST);
    GetHere(IS_SEND_QUEUE, Num(ZERO), m3);
    GetLater(IS_SEND_QUEUE, Num(ZERO), m3, CHARACTERISTICS);
    GetLater(IS_SEND_QUEUE, Num(ZERO), m3, REQUEST);
    GetHere(REQUEST, String(SET_STATUS), m2);
    GetLater(REQUEST, String(SET_STATUS), m2, CHARACTERISTICS);
    GetLater(REQUEST, String(SET_STATUS), m2, IS_SEND_QUEUE);
  }

  /**
   For every seven-bit value: the bulb parses the collapsed string to a payload whose
   characteristics are plain base64 without a backslash, and decrypting those gives back the JSON
   text, which parses to the value. Only the key can be refused.
   */
  lemma WireRoundTrip(aes: C.Aes, key: Str, v: Value)
    requires C.BlockCipher(aes) && Valid(v) && SevenBitValue(v)
    ensures Wire(aes, key, v).Some? <==> |key| == 16
    ensures |key| == 16 ==>
      var got := Parse(Wire(aes, key, v).value);
      && got == Some(Payload(Plain(aes, key, v)))
      && Asks(got.value, Plain(aes, key, v))
      && BACKSLASH !in Plain(aes, key, v)
      && C.WyzeDecrypt(aes, key, Plain(aes, key, v)) == Some(Print(v))
      && Parse(Print(v)) == Some(v)
  {
    if |key| == 16 {
      var c := C.CipherText(aes, key, Print(v));
      WireParses(aes, key, v);
      PayloadNames(Plain(aes, key, v));
      EncodedAlphabetic(c);
      Base64.NodeDecodeInverts(c);
      C.DecryptOfWire(aes, key, Print(v), Plain(aes, key, v));
      PrintClean(v);
      C.SurvivesExactly(Print(v));
      ParseInverts(v);
    }
  }

  lemma Prepend(k: Str, v: Value, rest: Members)
    requires SevenBit(k) && Valid(v) && SevenBitValue(v) && ValidMembers(rest) && SevenBitMembers(rest)
    ensures ValidMembers(Member(k, v, rest)) && SevenBitMembers(Member(k, v, rest))
  {
  }

  lemma Listed(ms: Members)
    requires ValidMembers(ms) && SevenBitMembers(ms)
    ensures Valid(Array(Item(Object(ms), NoItems))) && SevenBitValue(Array(Item(Object(ms), NoItems)))
  {
    assert ValidItems(NoItems) && SevenBitItems(NoItems);
    assert Valid(Object(ms)) && SevenBitValue(Object(ms));
    var xs := Item(Object(ms), NoItems);
    assert ValidItems(xs) && SevenBitItems(xs);
  }

  lemma AsciiSevenBit(s: string)
    requires forall i :: 0 <= i < |s| ==> s[i] as int < 128
    ensures SevenBit(Ascii(s))
  {
  }

  lemma PlistFine(pid: Str, pvalue: Str)
    requires SevenBit(pid) && SevenBit(pvalue)
    ensures Valid(Plist(pid, pvalue)) && SevenBitValue(Plist(pid, pvalue))
  {
    assert ValidMembers(NoMembers) && SevenBitMembers(NoMembers);
    var p2 := Member(Ascii("pvalue"), String(pvalue), NoMembers);
    Prepend(Ascii("pvalue"), String(pvalue), NoMembers);
    Prepend(Ascii("pid"), String(pid), p2);
    Listed(Member(Ascii("pid"), String(pid), p2));
  }

  lemma CharacteristicsFine(mac: Str, ts: Str, pid: Str, pvalue: Str)
    requires SevenBit(mac) && SevenBit(pid) && SevenBit(pvalue) && IsNumber(ts)
    ensures var v := Characteristics(mac, ts, pid, pvalue); Valid(v) && SevenBitValue(v)
  {
    TimedFine(ts, pid, pvalue);
    var m3 := Timed(ts, pid, pvalue);
    var m2 := Member(Ascii("index"), String([0x31]), m3);
    AsciiSevenBit("index");
    AsciiSevenBit("mac");
    Prepend(Ascii("index"), String([0x31]), m3);
    Prepend(Ascii("mac"), String(UpperCase(mac)), m2);
  }

  lemma TimedFine(ts: Str, pid: Str, pvalue: Str)
    requires SevenBit(pid) && SevenBit(pvalue) && IsNumber(ts)
    ensures ValidMembers(Timed(ts, pid, pvalue)) && SevenBitMembers(Timed(ts, pid, pvalue))
  {
    assert ValidMembers(NoMembers) && SevenBitMembers(NoMembers);
    PlistFine(pid, pvalue);
    var m4 := Member(Ascii("plist"), Plist(pid, pvalue), NoMembers);
    AsciiSevenBit("plist");
    AsciiSevenBit("ts");
    Prepend(Ascii("plist"), Plist(pid, pvalue), NoMembers);
    Prepend(Ascii("ts"), Num(ts), m4);
  }

  // The JSON text's members hold the arguments: the mac in upper case, the property under pid and pvalue.
  predicate Names(v: Value, mac: Str, ts: Str, pid: Str, pvalue: Str) {
    && v.Object?
    && (var m := Get(v.members, Ascii("mac"));
        m.Some? && m.value.String? && |m.value.s| == |mac|
        && forall i :: 0 <= i < |mac| ==> m.value.s[i] == if 0x61 <= mac[i] <= 0x7A then mac[i] - 32 else mac[i])
    && Get(v.members, Ascii("index")) == Some(String([0x31]))
    && Get(v.members, Ascii("ts")) == Some(Num(ts))
    && (var l := Get(v.members, Ascii("plist"));
        l.Some? && l.value.Array? && l.value.items.Item? && l.value.items.tail.NoItems?
        && l.value.items.head.Object?
        && Get(l.value.items.head.members, Ascii("pid")) == Some(String(pid))
        && Get(l.value.items.head.members, Ascii("pvalue")) == Some(String(pvalue)))
  }

  lemma NamesDiffer()
    ensures |Ascii("mac")| == 3 && |Ascii("index")| == 5 && |Ascii("ts")| == 2 && |Ascii("plist")| == 5
    ensures |Ascii("pid")| == 3 && |Ascii("pvalue")| == 6
    ensures Ascii("index") != Ascii("plist")
  {
    assert Ascii("index")[0] != Ascii("plist")[0];
  }

  lemma CharacteristicsName(mac: Str, ts: Str, pid: Str, pvalue: Str)
    ensures Names(Characteristics(mac, ts, pid, pvalue), mac, ts, pid, pvalue)
  {
    NamesDiffer();
    var mac', index, time, plist := Ascii("mac"), Ascii("index"), Ascii("ts"), Ascii("plist");
    var m4 := Member(plist, Plist(pid, pvalue), NoMembers);
    var m3 := Member(time, Num(ts), m4);
    var m2 := Member(index, String([0x31]), m3);
    Absent(plist, Plist(pid, pvalue), time);
    Absent(plist, Plist(pid, pvalue), index);
    Absent(plist, Plist(pid, pvalue), mac');
    GetHere(plist, Plist(pid, pvalue), NoMembers);
    GetHere(time, Num(ts), m4);
    GetLater(time, Num(ts), m4, plist);
    GetLater(time, Num(ts), m4, index);
    GetLater(time, Num(ts), m4, mac');
    GetHere(index, String([0x31]), m3);
    GetLater(index, String([0x31]), m3, plist);
    GetLater(index, String([0x31]), m3, time);
    GetLater(index, String([0x31]), m3, mac');
    GetHere(mac', String(UpperCase(mac)), m2);
    GetLater(mac', String(UpperCase(mac)), m2, plist);
    GetLater(mac', String(UpperCase(mac)), m2, time);
    GetLater(mac', String(UpperCase(mac)), m2, index);
    PlistNames(pid, pvalue);
  }

  lemma Absent(k: Str, v: Value, key: Str)
    requires k != key
    ensures Get(Member(k, v, NoMembers), key) == None
  {
    GetLater(k, v, NoMembers, key);
  }

  lemma PlistNames(pid: Str, pvalue: Str)
    ensures var l := Plist(pid, pvalue);
            && l.Array? && l.items.Item? && l.items.tail.NoItems? && l.items.head.Object?
            && Get(l.items.head.members, Ascii("pid")) == Some(String(pid))
            && Get(l.items.head.members, Ascii("pvalue")) == Some(String(pvalue))
  {
    NamesDiffer();
    var p2 := Member(Ascii("pvalue"), String(pvalue), NoMembers);
    Absent(Ascii("pvalue"), String(pvalue), Ascii("pid"));
    GetHere(Ascii("pvalue"), String(pvalue), NoMembers);
    GetHere(Ascii("pid"), String(pid), p2);
    GetLater(Ascii("pid"), String(pid), p2, Ascii("pvalue"));
  }

  /** The characteristics built from seven-bit arguments are such a value. */
  lemma CharacteristicsRoundTrip(aes: C.Aes, key: Str, mac: Str, ts: Str, pid: Str, pvalue: Str)
    requires C.BlockCipher(aes) && |key| == 16 && IsNumber(ts)
    requires SevenBit(mac) && SevenBit(pid) && SevenBit(pvalue)
    ensures var v := Characteristics(mac, ts, pid, pvalue);
            && Wire(aes, key, v).Some?
            && Parse(Wire(aes, key, v).value) == Some(Payload(Plain(aes, key, v)))
            && C.WyzeDecrypt(aes, key, Plain(aes, key, v)) == Some(Print(v))
            && Parse(Print(v)) == Some(v)
            && Names(v, mac, ts, pid, pvalue)
  {
    var v := Characteristics(mac, ts, pid, pvalue);
    CharacteristicsName(mac, ts, pid, pvalue);
    CharacteristicsFine(mac, ts, pid, pvalue);
    WireRoundTrip(aes, key, v);
  }
}
