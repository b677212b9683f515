/**
 wyzeEncrypt and wyzeDecrypt: 0x05 padding, PKCS#7 padding (section 6.3 of RFC 5652),
 CBC chaining (section 6.2 of NIST SP 800-38A), base64, and `\/` escapes.  AES itself
 is any block function with an inverse.
 */
module WyzeCipher {
  import opened Basics
  import opened Text
  import Base64

  // ---------------------------------------------------------------- blocks

  type Block = b: Bytes | |b| == 16 witness seq(16, i => 0)

  datatype Aes = Aes(enc: (Block, Block) -> Block, dec: (Block, Block) -> Block)

  // For every key, dec undoes enc.
  ghost predicate BlockCipher(aes: Aes) {
    forall k: Block, b: Block :: aes.dec(k, aes.enc(k, b)) == b
  }

  function XorBits(width: nat, a: nat, b: nat): nat {
    if width == 0 then 0
    else 2 * XorBits(width - 1, a / 2, b / 2) + (if a % 2 == b % 2 then 0 else 1)
  }

  lemma {:induction false} XorBitsBelow(width: nat, a: nat, b: nat)
    ensures XorBits(width, a, b) < Pow2(width)
  {
    if width > 0 { XorBitsBelow(width - 1, a / 2, b / 2); }
  }

  lemma {:induction false} XorBitsTwice(width: nat, a: nat, b: nat)
    requires a < Pow2(width)
    ensures XorBits(width, XorBits(width, a, b), b) == a
  {
    if width > 0 {
      XorBitsTwice(width - 1, a / 2, b / 2);
      var x := XorBits(width, a, b);
      assert x / 2 == XorBits(width - 1, a / 2, b / 2);
    }
  }

  lemma Pow2Of8()
    ensures Pow2(8) == 256
  {
    assert Pow2(4) == 16;
    assert Pow2(6) == 64;
  }

  function Xor(a: Byte, b: Byte): Byte {
    Pow2Of8();
    XorBitsBelow(8, a, b);
    XorBits(8, a, b)
  }

  lemma XorTwice(a: Byte, b: Byte)
    ensures Xor(Xor(a, b), b) == a
  {
    Pow2Of8();
    XorBitsTwice(8, a, b);
  }

  function XorBlock(a: Block, b: Block): Block {
    seq(16, i requires 0 <= i < 16 => Xor(a[i], b[i]))
  }

  lemma XorBlockTwice(a: Block, b: Block)
    ensures XorBlock(XorBlock(a, b), b) == a
  {
    forall i | 0 <= i < 16
      ensures XorBlock(XorBlock(a, b), b)[i] == a[i]
    {
      XorTwice(a[i], b[i]);
    }
  }

  function Split(p: Bytes): seq<Block>
    requires |p| % 16 == 0
  {
    if p == [] then [] else [p[..16]] + Split(p[16..])
  }

  function Join(bs: seq<Block>): Bytes {
    if bs == [] then [] else bs[0] + Join(bs[1..])
  }

  lemma {:induction false} JoinSplit(p: Bytes)
    requires |p| % 16 == 0
    ensures Join(Split(p)) == p
  {
    if p != [] {
      assert Split(p)[1..] == Split(p[16..]);
      JoinSplit(p[16..]);
      assert p == p[..16] + p[16..];
    }
  }

  lemma {:induction false} SplitJoin(bs: seq<Block>)
    ensures |Join(bs)| % 16 == 0 && (bs != [] ==> Join(bs) != [])
    ensures Split(Join(bs)) == bs
  {
    if bs != [] {
      SplitJoin(bs[1..]);
      var p := Join(bs);
      assert p[..16] == bs[0] && p[16..] == Join(bs[1..]);
      assert bs == [bs[0]] + bs[1..];
    }
  }

  // ---------------------------------------------------------------- chaining

  function CbcEncrypt(aes: Aes, key: Block, prev: Block, ps: seq<Block>): seq<Block>
    decreases |ps|
  {
    if ps == [] then []
    else
      var c := aes.enc(key, XorBlock(ps[0], prev));
      [c] + CbcEncrypt(aes, key, c, ps[1..])
  }

  function CbcDecrypt(aes: Aes, key: Block, prev: Block, cs: seq<Block>): seq<Block>
    decreases |cs|
  {
    if cs == [] then []
    else [XorBlock(aes.dec(key, cs[0]), prev)] + CbcDecrypt(aes, key, cs[0], cs[1..])
  }

  lemma {:induction false} CbcInverts(aes: Aes, key: Block, prev: Block, ps: seq<Block>)
    requires BlockCipher(aes)
    ensures CbcDecrypt(aes, key, prev, CbcEncrypt(aes, key, prev, ps)) == ps
    decreases |ps|
  {
    if ps != [] {
      var c := aes.enc(key, XorBlock(ps[0], prev));
      var cs := CbcEncrypt(aes, key, prev, ps);
      assert cs[1..] == CbcEncrypt(aes, key, c, ps[1..]);
      CbcInverts(aes, key, c, ps[1..]);
      XorBlockTwice(ps[0], prev);
      assert ps == [ps[0]] + ps[1..];
    }
  }

  // ---------------------------------------------------------------- paddings

  function Repeat(b: Byte, n: nat): (r: Bytes)
    ensures |r| == n
  {
    seq(n, i => b)
  }

  // pad: fill up with 0x05, a whole block of it if nothing is missing.
  function Pad(raw: Bytes): (r: Bytes)
    ensures |r| % 16 == 0
  {
    raw + Repeat(5, 16 - |raw| % 16)
  }

  function Pkcs7(p: Bytes): (r: Bytes)
    ensures |r| % 16 == 0 && |r| > 0
  {
    p + Repeat(16 - |p| % 16, 16 - |p| % 16)
  }

  // decipher.final(): the last byte says how many bytes like it to take off.
  function UnPkcs7(p: Bytes): Option<Bytes> {
    if |p| == 0 then None
    else
      var n := p[|p| - 1];
      if 1 <= n <= 16 && n <= |p| && p[|p| - n..] == Repeat(n, n) then Some(p[..|p| - n]) else None
  }

  lemma UnPkcs7Inverts(p: Bytes)
    ensures UnPkcs7(Pkcs7(p)) == Some(p)
  {
    var n := 16 - |p| % 16;
    var q := Pkcs7(p);
    assert q[|q| - 1] == n;
    assert q[|q| - n..] == Repeat(n, n);
    assert q[..|q| - n] == p;
  }

  // ---------------------------------------------------------------- the two functions

  // Buffer.from(s, "ascii") keeps the low byte of every unit; toString("ascii") its low seven bits.
  function LowBytes(s: Str): (r: Bytes)
    ensures |r| == |s|
  {
    seq(|s|, i requires 0 <= i < |s| => s[i] % 256)
  }

  function SevenBits(b: Bytes): (r: Str)
    ensures |r| == |b|
  {
    seq(|b|, i requires 0 <= i < |b| => b[i] % 128)
  }

  // replace(/\x05/g, "")
  function WithoutFives(s: Str): Str {
    if s == [] then [] else (if s[0] == 5 then [] else [s[0]]) + WithoutFives(s[1..])
  }

  // The cipher text of a text under a key that is also the initial vector.
  function CipherText(aes: Aes, key: Str, text: Str): Bytes
    requires |key| == 16
  {
    Join(CbcEncrypt(aes, LowBytes(key), LowBytes(key), Split(Pkcs7(Pad(LowBytes(text))))))
  }

  // None: the cipher refuses the key.
  function WyzeEncrypt(aes: Aes, key: Str, text: Str): Option<Str> {
    if |key| != 16 then None
    else Some(ReplaceAll(Base64.Encode(CipherText(aes, key, text)), SLASH, [BACKSLASH, SLASH]))
  }

  // What the decipher returns; None: a bad key, a bad length or a bad padding makes it throw.
  function Deciphered(aes: Aes, key: Str, enc: Str): Option<Bytes> {
    var c := Base64.NodeDecode(enc);
    if |key| != 16 || |c| == 0 || |c| % 16 != 0 then None
    else UnPkcs7(Join(CbcDecrypt(aes, LowBytes(key), LowBytes(key), Split(c))))
  }

  function WyzeDecrypt(aes: Aes, key: Str, enc: Str): Option<Str> {
    var p := Deciphered(aes, key, enc);
    if p.None? then None else Some(WithoutFives(SevenBits(p.value)))
  }

  lemma {:induction false} WithoutFivesConcat(s: Str, t: Str)
    ensures WithoutFives(s + t) == WithoutFives(s) + WithoutFives(t)
  {
    if s == [] {
      assert s + t == t;
    } else {
      assert (s + t)[1..] == s[1..] + t;
      WithoutFivesConcat(s[1..], t);
    }
  }

  lemma {:induction false} OnlyFives(s: Str)
    requires forall i :: 0 <= i < |s| ==> s[i] == 5
    ensures WithoutFives(s) == []
  {
    if s != [] { OnlyFives(s[1..]); }
  }

  lemma {:induction false} WithoutFivesIdentity(s: Str)
    ensures |WithoutFives(s)| <= |s|
    ensures 5 !in s ==> WithoutFives(s) == s
    ensures 5 in s ==> |WithoutFives(s)| < |s|
    ensures 5 !in WithoutFives(s)
  {
    if s != [] {
      WithoutFivesIdentity(s[1..]);
      assert s == [s[0]] + s[1..];
    }
  }

  // What survives of a text: its low seven bits, minus the fives.
  function Survives(text: Str): Str {
    WithoutFives(SevenBits(LowBytes(text)))
  }

  lemma DecryptOfWire(aes: Aes, key: Str, text: Str, wire: Str)
    requires BlockCipher(aes) && |key| == 16
    requires Base64.NodeDecode(wire) == CipherText(aes, key, text)
    ensures Deciphered(aes, key, wire) == Some(Pad(LowBytes(text)))
    ensures WyzeDecrypt(aes, key, wire) == Some(Survives(text))
  {
    var k, raw := LowBytes(key), LowBytes(text);
    var p := Pkcs7(Pad(raw));
    var cs := CbcEncrypt(aes, k, k, Split(p));
    SplitJoin(cs);
    CbcInverts(aes, k, k, Split(p));
    JoinSplit(p);
    assert Join(CbcDecrypt(aes, k, k, Split(CipherText(aes, key, text)))) == p;
    UnPkcs7Inverts(Pad(raw));
    PadStripped(raw);
  }

  lemma PadStripped(raw: Bytes)
    ensures WithoutFives(SevenBits(Pad(raw))) == WithoutFives(SevenBits(raw))
  {
    var fill := Repeat(5, 16 - |raw| % 16);
    assert SevenBits(Pad(raw)) == SevenBits(raw) + SevenBits(fill);
    OnlyFives(SevenBits(fill));
    WithoutFivesConcat(SevenBits(raw), SevenBits(fill));
  }

  // The low bytes of the text, then fives up to the next multiple of 16 above its length.
  predicate FilledUp(p: Bytes, text: Str) {
    && |p| % 16 == 0 && |text| < |p| <= |text| + 16
    && (forall i :: 0 <= i < |text| ==> p[i] == text[i] % 256)
    && (forall i :: |text| <= i < |p| ==> p[i] == 5)
  }

  lemma PadFillsUp(text: Str)
    ensures FilledUp(Pad(LowBytes(text)), text)
  {
  }

  /**
   For every 16-character key and every text, what was encrypted is the text filled up with
   fives, and decrypting gives the low seven bits of the text without its \x05 characters; so
   it is the identity exactly on seven-bit texts free of \x05.  Other keys are refused.
   */
  lemma DecryptEncrypt(aes: Aes, key: Str, text: Str)
    requires BlockCipher(aes)
    ensures WyzeEncrypt(aes, key, text).Some? <==> |key| == 16
    ensures |key| == 16 ==>
              var p := Deciphered(aes, key, WyzeEncrypt(aes, key, text).value); p.Some? && FilledUp(p.value, text)
    ensures |key| == 16 ==> WyzeDecrypt(aes, key, WyzeEncrypt(aes, key, text).value) == Some(Survives(text))
    ensures Survives(text) == text <==> SevenBit(text) && 5 !in text
  {
    if |key| == 16 {
      var c := CipherText(aes, key, text);
      Base64.NodeDecodeInverts(c);
      Base64.EscapedSlashesSkipped(Base64.Encode(c));
      DecryptOfWire(aes, key, text, WyzeEncrypt(aes, key, text).value);
      PadFillsUp(text);
    }
    SurvivesExactly(text);
  }

  lemma SurvivesExactly(text: Str)
    ensures Survives(text) == text <==> SevenBit(text) && 5 !in text
  {
    var t := SevenBits(LowBytes(text));
    WithoutFivesIdentity(t);
    if SevenBit(text) {
      assert t == text;
    }
    if Survives(text) == text {
      assert t == text;
      assert forall i :: 0 <= i < |text| ==> text[i] == t[i] < 128;
    }
  }
}
