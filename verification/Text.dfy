/** JavaScript strings as sequences of UTF-16 code units, and bytes. */
module Text {
  type Unit = u: int | 0 <= u < 0x10000
  type Byte = b: int | 0 <= b < 0x100
  type Str = seq<Unit>
  type Bytes = seq<Byte>

  // ASCII characters by name.
  const TAB: Byte := 0x09
  const LF: Byte := 0x0A
  const FF: Byte := 0x0C
  const CR: Byte := 0x0D
  const SPACE: Byte := 0x20
  const QUOTE: Byte := 0x22
  const PERCENT: Byte := 0x25
  const PLUS: Byte := 0x2B
  const COMMA: Byte := 0x2C
  const MINUS: Byte := 0x2D
  const DOT: Byte := 0x2E
  const SLASH: Byte := 0x2F
  const COLON: Byte := 0x3A
  const EQUALS: Byte := 0x3D
  const BACKSLASH: Byte := 0x5C
  const UNDERSCORE: Byte := 0x5F
  const AMPERSAND: Byte := 0x26

  predicate IsDigit(u: Unit) {
    0x30 <= u <= 0x39
  }

  predicate IsUpper(u: Unit) {
    0x41 <= u <= 0x5A
  }

  predicate IsLower(u: Unit) {
    0x61 <= u <= 0x7A
  }

  // A literal whose characters are all ASCII.
  function Ascii(s: string): Str
    requires forall i :: 0 <= i < |s| ==> s[i] as int < 128
  {
    seq(|s|, i requires 0 <= i < |s| => s[i] as int)
  }

  function HexUpper(v: int): Byte
    requires 0 <= v < 16
  {
    if v < 10 then 0x30 + v else 0x41 + v - 10
  }

  function HexLower(v: int): Byte
    requires 0 <= v < 16
  {
    if v < 10 then 0x30 + v else 0x61 + v - 10
  }

  // The value of a hexadecimal digit of either case, or -1.
  function HexValue(u: Unit): int
    ensures -1 <= HexValue(u) < 16
  {
    if IsDigit(u) then u - 0x30
    else if 0x41 <= u <= 0x46 then u - 0x41 + 10
    else if 0x61 <= u <= 0x66 then u - 0x61 + 10
    else -1
  }

  // String.prototype.replace with a global pattern of one character.
  function ReplaceAll(s: Str, c: Unit, with: Str): Str {
    if s == [] then [] else (if s[0] == c then with else [s[0]]) + ReplaceAll(s[1..], c, with)
  }

  // String.prototype.startsWith.
  predicate HasPrefix(s: Str, p: Str) {
    |p| <= |s| && s[..|p|] == p
  }

  predicate SevenBit(s: Str) {
    forall i :: 0 <= i < |s| ==> s[i] < 128
  }
}
