/**
 The signalling envelope: JSON around a base64 payload, built and read by the snapshot
 client (Node) and by the viewer page (browser).
 */
module Signal {
  import opened Basics
  import opened Text
  import opened Json
  import Base64
  import Percent
  import Utf8

  // ---------------------------------------------------------------- the viewer's b64Encode and b64Decode

  function AsBytes(s: Str): Option<Bytes> {
    if forall i :: 0 <= i < |s| ==> s[i] < 256 then Some(s) else None
  }

  // btoa(unescape(encodeURIComponent(value))); None: it throws.
  function B64Encode(value: Str): Option<Str> {
    var e := Percent.EncodeURIComponent(value);
    if e.None? then None
    else
      var b := AsBytes(Percent.Unescape(e.value));
      if b.None? then None else Some(Base64.Encode(b.value))
  }

  // decodeURIComponent(escape(atob(padded)))
  function B64Decode(value: Str): Option<Str> {
    var b := Base64.BrowserDecode(value);
    if b.None? then None else Percent.DecodeURIComponent(Percent.Escape(b.value))
  }

  /** b64Encode is base64 of UTF-8, on exactly the strings without lone surrogates. */
  lemma B64EncodeIsUtf8(value: Str)
    ensures B64Encode(value) == if Utf8.WellFormed(value) then Some(Base64.Encode(Utf8.Encode(value))) else None
  {
    Percent.DecodeInverts(value);
    if Utf8.WellFormed(value) { Percent.UnescapeEncode(value); }
  }

  /** b64Decode inverts it in the standard and the URL-safe alphabet, with or without padding. */
  lemma {:induction false} B64DecodeInverts(value: Str, s: Str)
    requires Utf8.WellFormed(value)
    requires var t := Base64.Symbols(Base64.Sextets(Utf8.Encode(value))); s == t || s == Base64.UrlSafe(t)
    ensures B64Decode(s) == Some(value)
    ensures B64Decode(s + Base64.Padding(|Utf8.Encode(value)|)) == Some(value)
  {
    var b := Utf8.Encode(value);
    Base64.BrowserDecodeInverts(b, s);
    Percent.DecodeEscape(b);
    Utf8.DecodeInverts(value);
  }

  // ---------------------------------------------------------------- printed values are well formed

  lemma {:induction false} WellFormedConcat(s: Str, t: Str)
    requires Utf8.WellFormed(s) && Utf8.WellFormed(t)
    ensures Utf8.WellFormed(s + t)
    decreases |s|
  {
    if s == [] {
      assert s + t == t;
    } else {
      var w := Utf8.Width(s);
      assert (s + t)[w..] == s[w..] + t;
      WellFormedConcat(s[w..], t);
    }
  }

  lemma {:induction false} EscapeWellFormed(s: Str)
    ensures Utf8.WellFormed(EscapeString(s))
    decreases |s|
  {
    if s != [] {
      if Utf8.StartsWithPair(s) {
        EscapeWellFormed(s[2..]);
        assert EscapeString(s)[2..] == EscapeString(s[2..]);
      } else {
        EscapeWellFormed(s[1..]);
        EscapeUnitWellFormed(s[0]);
        WellFormedConcat(EscapeUnit(s[0]), EscapeString(s[1..]));
      }
    }
  }

  lemma EscapeUnitWellFormed(u: Unit)
    ensures Utf8.WellFormed(EscapeUnit(u))
  {
    var e := EscapeUnit(u);
    if |e| == 1 { assert e[1..] == []; } else { Percent.AsciiWellFormed(e); }
  }

  lemma {:induction false} SpanWellFormed(t: Str)
    requires Span(t) == |t|
    ensures Utf8.WellFormed(t)
  {
    if t != [] { SpanWellFormed(t[1..]); }
  }

  lemma One(b: Byte)
    requires b < 128
    ensures Utf8.WellFormed([b])
  {
    assert SevenBit([b]);
    Percent.AsciiWellFormed([b]);
  }

  lemma QuoteWellFormed(s: Str)
    ensures Utf8.WellFormed(Quote(s))
  {
    EscapeWellFormed(s);
    One(QUOTE);
    WellFormedConcat([QUOTE], EscapeString(s));
    WellFormedConcat([QUOTE] + EscapeString(s), [QUOTE]);
  }

  lemma Enclosed(a: Byte, s: Str, b: Byte)
    requires a < 128 && b < 128 && Utf8.WellFormed(s)
    ensures Utf8.WellFormed([a] + s + [b])
  {
    One(a);
    One(b);
    WellFormedConcat([a], s);
    WellFormedConcat([a] + s, [b]);
  }

  /** JSON text never holds a lone surrogate, whatever the strings in it hold. */
  lemma {:induction false} PrintWellFormed(v: Value)
    requires Valid(v)
    ensures Utf8.WellFormed(Print(v))
  {
    match v
    case Null => Percent.AsciiWellFormed(NULL);
    case Bool(_) =>
      Percent.AsciiWellFormed(TRUE);
      Percent.AsciiWellFormed(FALSE);
    case Num(token) =>
      NumberSpan(token);
      SpanWellFormed(token);
    case String(s) => QuoteWellFormed(s);
    case Array(items) =>
      ItemsWellFormed(items);
      Enclosed(LBRACKET, PrintItems(items), RBRACKET);
    case Object(members) =>
      MembersWellFormed(members);
      Enclosed(LBRACE, PrintMembers(members), RBRACE);
  }

  lemma {:induction false} ItemsWellFormed(xs: Items)
    requires ValidItems(xs)
    ensures Utf8.WellFormed(PrintItems(xs))
  {
    if xs.Item? {
      PrintWellFormed(xs.head);
      ItemsWellFormed(xs.tail);
      One(COMMA);
      WellFormedConcat([COMMA], PrintItems(xs.tail));
      WellFormedConcat(Print(xs.head), if xs.tail.NoItems? then [] else [COMMA] + PrintItems(xs.tail));
    }
  }

  lemma {:induction false} MembersWellFormed(ms: Members)
    requires ValidMembers(ms)
    ensures Utf8.WellFormed(PrintMembers(ms))
  {
    if ms.Member? {
      QuoteWellFormed(ms.key);
      PrintWellFormed(ms.value);
      MembersWellFormed(ms.rest);
      One(COLON);
      One(COMMA);
      WellFormedConcat(Quote(ms.key), [COLON]);
      WellFormedConcat(Quote(ms.key) + [COLON], Print(ms.value));
      WellFormedConcat([COMMA], PrintMembers(ms.rest));
      WellFormedConcat(Quote(ms.key) + [COLON] + Print(ms.value),
                       if ms.rest.NoMembers? then [] else [COMMA] + PrintMembers(ms.rest));
    }
  }

  // ---------------------------------------------------------------- parseSignalPayload

  // Null stands for the null the function returns.
  function ParseSignalPayload(raw: Str): Value {
    if raw == [] || raw == NULL then Null
    else if Parse(raw).Some? then Parse(raw).value
    else
      var t := B64Decode(raw);
      if t.Some? && Parse(t.value).Some? then Parse(t.value).value else Null
  }

  // The encoding of a JSON text begins with one of I L M N O W Z b d e, and no JSON text does.
  lemma EncodedIsNoJson(b: Bytes)
    requires b != [] && b[0] in {LBRACE, LBRACKET, QUOTE, MINUS, 0x74, 0x66, 0x6E} + set d: Byte | IsDigit(d)
    ensures var s := Base64.Encode(b); s != [] && s != NULL && Parse(s).None?
  {
    var s := Base64.Encode(b);
    var v := Base64.Sextets(b);
    assert v[0] == b[0] / 4;
    assert s[0] == Base64.Symbol(v[0]);
    assert s[0] in {0x49, 0x4C, 0x4D, 0x4E, 0x4F, 0x57, 0x5A, 0x62, 0x64, 0x65};
    NoJsonStart(s);
  }

  lemma NoJsonStart(s: Str)
    requires s != [] && s[0] in {0x49, 0x4C, 0x4D, 0x4E, 0x4F, 0x57, 0x5A, 0x62, 0x64, 0x65}
    ensures ParseValue(s).Failed? && s != NULL
  {
    assert s[0] != NULL[0] && s[0] != TRUE[0] && s[0] != FALSE[0];
    NoWord(s);
    if Span(s) > 0 {
      assert s[..Span(s)][0] == s[0];
      assert Digits(s[..Span(s)]) == 0;
    }
  }

  lemma JsonStart(v: Value)
    requires Valid(v)
    ensures Print(v) != [] && Print(v)[0] in {LBRACE, LBRACKET, QUOTE, MINUS, 0x74, 0x66, 0x6E} + set d: Byte | IsDigit(d)
  {
    if v.Num? { NumberSpan(v.token); }
  }

  lemma Utf8Start(s: Str)
    requires s != [] && s[0] < 128
    ensures Utf8.Encode(s) != [] && Utf8.Encode(s)[0] == s[0]
  {
  }

  /**
   A payload that travels base64-encoded is not itself JSON, so the raw attempt fails
   and the decoded one returns the value; a payload that travels raw is returned as is.
   */
  lemma {:induction false} PayloadUnambiguous(v: Value)
    requires Valid(v)
    ensures B64Encode(Print(v)).Some? && Parse(B64Encode(Print(v)).value).None?
    ensures ParseSignalPayload(B64Encode(Print(v)).value) == v
    ensures ParseSignalPayload(Print(v)) == v
  {
    EncodedPayload(v);
    JsonStart(v);
    ParseInverts(v);
    if Print(v) == NULL { ParseWord([]); assert NULL + [] == NULL; }
  }

  lemma EncodedPayload(v: Value)
    requires Valid(v)
    ensures var s := B64Encode(Print(v));
            s.Some? && Parse(s.value).None? && s.value != [] && s.value != NULL && B64Decode(s.value) == Some(Print(v))
  {
    var text := Print(v);
    var b := Utf8.Encode(text);
    PrintWellFormed(v);
    B64EncodeIsUtf8(text);
    JsonStart(v);
    Utf8Start(text);
    EncodedIsNoJson(b);
    B64DecodeInverts(text, Base64.Symbols(Base64.Sextets(b)));
  }

  // ---------------------------------------------------------------- _sendSignal and _parseSignalMessage

  const ACTION: Str := Ascii("action")
  const MESSAGE_PAYLOAD: Str := Ascii("messagePayload")
  const RECIPIENT: Str := Ascii("recipientClientId")
  const MESSAGE_TYPE: Str := Ascii("messageType")

  function Envelope(action: Str, payload: Str, recipient: Str): Value {
    Object(Member(ACTION, String(action),
           Member(MESSAGE_PAYLOAD, String(payload),
           Member(RECIPIENT, String(recipient), NoMembers))))
  }

  function SendSignal(action: Str, payload: Value, recipient: Str): Str {
    Print(Envelope(action, Base64.Encode(Utf8.Encode(Print(payload))), recipient))
  }

  // A token is zero when no digit before its exponent is other than 0.
  predicate ZeroToken(t: Str) {
    t == [] || t[0] in {0x65, 0x45} || (!(0x31 <= t[0] <= 0x39) && ZeroToken(t[1..]))
  }

  predicate Truthy(v: Value) {
    match v
    case Null => false
    case Bool(b) => b
    case Num(token) => !ZeroToken(token)
    case String(s) => s != []
    case _ => true
  }

  datatype Message = Message(kind: Value, payload: Value)

  // `lossy` is what Buffer.toString makes of bytes that are not UTF-8.
  function DecodePayload(v: Option<Value>, lossy: Bytes -> Str): Value {
    if v.None? || !v.value.String? || v.value.s == [] then Null
    else
      var b := Base64.NodeDecode(v.value.s);
      var text := if Utf8.Decode(b).Some? then Utf8.Decode(b).value else lossy(b);
      if Parse(text).Some? then Parse(text).value else Null
  }

  // None: null.
  function ParseSignalMessage(raw: Str, lossy: Bytes -> Str): Option<Message> {
    if raw == [] then None
    else match Parse(raw)
      case None => None
      case Some(env) =>
        if !env.Object? then None
        else
          var kind := if Get(env.members, MESSAGE_TYPE).Some? && Truthy(Get(env.members, MESSAGE_TYPE).value)
                      then Get(env.members, MESSAGE_TYPE) else Get(env.members, ACTION);
          if kind.None? || !Truthy(kind.value) then None
          else Some(Message(kind.value, DecodePayload(Get(env.members, MESSAGE_PAYLOAD), lossy)))
  }

  lemma KeysDiffer()
    ensures ACTION != MESSAGE_PAYLOAD && ACTION != RECIPIENT && ACTION != MESSAGE_TYPE
    ensures MESSAGE_PAYLOAD != RECIPIENT && MESSAGE_PAYLOAD != MESSAGE_TYPE && RECIPIENT != MESSAGE_TYPE
  {
    assert |ACTION| == 6 && |MESSAGE_PAYLOAD| == 14 && |RECIPIENT| == 17 && |MESSAGE_TYPE| == 11;
  }

  lemma EnvelopeFields(action: Str, payload: Str, recipient: Str)
    ensures Valid(Envelope(action, payload, recipient))
    ensures var ms := Envelope(action, payload, recipient).members;
            && Get(ms, MESSAGE_TYPE) == None && Get(ms, ACTION) == Some(String(action))
            && Get(ms, MESSAGE_PAYLOAD) == Some(String(payload)) && Get(ms, RECIPIENT) == Some(String(recipient))
  {
    KeysDiffer();
    var m3 := Member(RECIPIENT, String(recipient), NoMembers);
    var m2 := Member(MESSAGE_PAYLOAD, String(payload), m3);
    assert forall k :: Get(NoMembers, k) == None;
    assert Get(m3, MESSAGE_TYPE) == None && Get(m3, ACTION) == None && Get(m3, MESSAGE_PAYLOAD) == None;
    GetHere(RECIPIENT, String(recipient), NoMembers);
    GetLater(MESSAGE_PAYLOAD, String(payload), m3, RECIPIENT);
    GetLater(ACTION, String(action), m2, RECIPIENT);
    assert ValidMembers(NoMembers);
    assert ValidMembers(m3);
    assert ValidMembers(m2);
    assert Get(m2, MESSAGE_TYPE) == None && Get(m2, ACTION) == None && Get(m2, MESSAGE_PAYLOAD) == Some(String(payload));
  }

  lemma DecodePayloadInverts(payload: Value, lossy: Bytes -> Str)
    requires Valid(payload)
    ensures DecodePayload(Some(String(Base64.Encode(Utf8.Encode(Print(payload))))), lossy) == payload
  {
    var text := Print(payload);
    var b := Utf8.Encode(text);
    PrintWellFormed(payload);
    JsonStart(payload);
    Utf8Start(text);
    EncodedIsNoJson(b);
    Base64.NodeDecodeInverts(b);
    Utf8.DecodeInverts(text);
    ParseInverts(payload);
  }

  /**
   Reading a sent message gives its action and, for every JSON payload, exactly that
   payload; a message with an empty action, and only that, is read as null.
   */
  lemma ParseInvertsSend(action: Str, payload: Value, recipient: Str, lossy: Bytes -> Str)
    requires Valid(payload)
    ensures ParseSignalMessage(SendSignal(action, payload, recipient), lossy) ==
            if action == [] then None else Some(Message(String(action), payload))
  {
    var p := Base64.Encode(Utf8.Encode(Print(payload)));
    var env := Envelope(action, p, recipient);
    EnvelopeFields(action, p, recipient);
    ParseInverts(env);
    PrintStart(env);
    DecodePayloadInverts(payload, lossy);
  }

  /** The sent text is JSON that holds the action, the recipient and the payload's base64 form, and no more. */
  lemma SentFields(action: Str, payload: Value, recipient: Str)
    requires Valid(payload)
    ensures var env := Parse(SendSignal(action, payload, recipient));
            && env.Some? && env.value.Object?
            && Get(env.value.members, ACTION) == Some(String(action))
            && Get(env.value.members, RECIPIENT) == Some(String(recipient))
            && Get(env.value.members, MESSAGE_PAYLOAD) == Some(String(Base64.Encode(Utf8.Encode(Print(payload)))))
            && Get(env.value.members, MESSAGE_TYPE) == None
  {
    var p := Base64.Encode(Utf8.Encode(Print(payload)));
    EnvelopeFields(action, p, recipient);
    ParseInverts(Envelope(action, p, recipient));
  }

  /** In a received message a truthy messageType wins over action, and without either the message is dropped. */
  lemma MessageTypeWins(ms: Members, lossy: Bytes -> Str)
    requires ValidMembers(ms)
    ensures var r, t, a := ParseSignalMessage(Print(Object(ms)), lossy), Get(ms, MESSAGE_TYPE), Get(ms, ACTION);
            && (t.Some? && Truthy(t.value) ==> r.Some? && r.value.kind == t.value)
            && (!(t.Some? && Truthy(t.value)) && a.Some? && Truthy(a.value) ==> r.Some? && r.value.kind == a.value)
            && (r.None? <==> !(t.Some? && Truthy(t.value)) && !(a.Some? && Truthy(a.value)))
  {
    ParseInverts(Object(ms));
    PrintStart(Object(ms));
  }

  /** The viewer's _send puts the same text on the wire as the snapshot client's _sendSignal. */
  lemma {:induction false} SameEnvelope(action: Str, payload: Value, recipient: Str)
    requires Valid(payload)
    ensures B64Encode(Print(payload)).Some?
    ensures Print(Envelope(action, B64Encode(Print(payload)).value, recipient)) == SendSignal(action, payload, recipient)
  {
    PrintWellFormed(payload);
    B64EncodeIsUtf8(Print(payload));
  }
}
