/** Strings as the octets of their UTF-8 form (RFC 3629 section 4). */
module Text {
  import opened Prelude

  type Str = seq<byte>

  /** A header field. */
  datatype Header = Header(name: Str, value: Str)

  predicate Continuation(s: Str, i: nat) {
    i < |s| && 0x80 <= s[i] <= 0xBF
  }

  predicate Between(s: Str, i: nat, low: byte, high: byte) {
    i < |s| && low <= s[i] <= high
  }

  /** The length of the character at `i`, and 0 when there is none. */
  function CharLength(s: Str, i: nat): (n: nat)
    requires i < |s|
    ensures i + n <= |s|
  {
    var b := s[i];
    if b < 0x80 then 1
    else if 0xC2 <= b <= 0xDF then
      if Continuation(s, i + 1) then 2 else 0
    else if 0xE0 <= b <= 0xEF then
      if && Between(s, i + 1, if b == 0xE0 then 0xA0 else 0x80, if b == 0xED then 0x9F else 0xBF)
         && Continuation(s, i + 2)
      then 3 else 0
    else if 0xF0 <= b <= 0xF4 then
      if && Between(s, i + 1, if b == 0xF0 then 0x90 else 0x80, if b == 0xF4 then 0x8F else 0xBF)
         && Continuation(s, i + 2) && Continuation(s, i + 3)
      then 4 else 0
    else 0
  }

  /** From `i` on, `s` is a sequence of characters. */
  predicate Utf8(s: Str, i: nat := 0)
    decreases |s| - i
  {
    i >= |s| || (CharLength(s, i) > 0 && Utf8(s, i + CharLength(s, i)))
  }

  function LowerByte(b: byte): byte {
    if 65 <= b <= 90 then b + 32 else b
  }

  /** to_ascii_lowercase */
  function Lower(s: Str): (r: Str)
    ensures |r| == |s|
    ensures forall i | 0 <= i < |s| :: r[i] == LowerByte(s[i])
  {
    seq(|s|, i requires 0 <= i < |s| => LowerByte(s[i]))
  }

  lemma {:induction false} LowerKeepsUtf8(s: Str, i: nat := 0)
    requires Utf8(s, i)
    ensures Utf8(Lower(s), i)
    decreases |s| - i
  {
    if i < |s| {
      assert CharLength(Lower(s), i) == CharLength(s, i);
      LowerKeepsUtf8(s, i + CharLength(s, i));
    }
  }

  lemma LowerIdempotent(s: Str)
    ensures Lower(Lower(s)) == Lower(s)
  {}

  /** eq_ignore_ascii_case */
  predicate SameIgnoringCase(a: Str, b: Str) {
    Lower(a) == Lower(b)
  }

  /** An ASCII literal. */
  function Ascii(text: string): (s: Str)
    ensures |s| == |text|
  {
    seq(|text|, i requires 0 <= i < |text| => if text[i] as int < 128 then text[i] as int else 63)
  }

  /** Texts of different lengths, or that begin with different letters. */
  predicate Different(a: string, b: string) {
    |a| != |b| || (a != "" && LowerByte(Ascii(a)[0]) != LowerByte(Ascii(b)[0]))
  }

  lemma OtherText(a: string, b: string)
    requires Different(a, b)
    ensures !SameIgnoringCase(Ascii(a), Ascii(b))
  {
    if |a| == |b| {
      assert Lower(Ascii(a))[0] != Lower(Ascii(b))[0];
    }
  }

  lemma {:induction false} AsciiIsUtf8(s: Str, i: nat := 0)
    requires forall k | 0 <= k < |s| :: s[k] < 128
    ensures Utf8(s, i)
    decreases |s| - i
  {
    if i < |s| {
      AsciiIsUtf8(s, i + 1);
    }
  }

  /** to_string of a number */
  function Decimal(n: nat): (s: Str)
    ensures s != [] && forall k | 0 <= k < |s| :: 48 <= s[k] <= 57
  {
    if n < 10 then [48 + n] else Decimal(n / 10) + [48 + n % 10]
  }

  /** The number that decimal digits write. */
  function DecimalValue(s: Str): nat
    requires forall k | 0 <= k < |s| :: 48 <= s[k] <= 57
  {
    if s == [] then 0 else 10 * DecimalValue(s[..|s| - 1]) + (s[|s| - 1] - 48)
  }

  lemma {:induction false} DecimalRoundTrip(n: nat)
    ensures DecimalValue(Decimal(n)) == n
  {
    if n >= 10 {
      DecimalRoundTrip(n / 10);
      assert Decimal(n)[..|Decimal(n)| - 1] == Decimal(n / 10);
    } else {
      assert Decimal(n)[..0] == [];
    }
  }

  // ----- White space

  /** White space that trim takes off: how many octets of it begin at `i`. */
  function SpaceAt(s: Str, i: nat): (n: nat)
    ensures n > 0 ==> i + n <= |s|
  {
    if i >= |s| then 0
    else if 9 <= s[i] <= 13 || s[i] == 32 then 1
    else if i + 1 < |s| && s[i] == 0xC2 && (s[i + 1] == 0x85 || s[i + 1] == 0xA0) then 2
    else if i + 2 < |s| && WideSpace(s[i], s[i + 1], s[i + 2]) then 3
    else 0
  }

  /** U+1680, U+2000 to U+200A, U+2028, U+2029, U+202F, U+205F and U+3000. */
  predicate WideSpace(a: byte, b: byte, c: byte) {
    || (a == 0xE1 && b == 0x9A && c == 0x80)
    || (a == 0xE2 && b == 0x80 && (0x80 <= c <= 0x8A || c == 0xA8 || c == 0xA9 || c == 0xAF))
    || (a == 0xE2 && b == 0x81 && c == 0x9F)
    || (a == 0xE3 && b == 0x80 && c == 0x80)
  }

  function TrimStart(s: Str): Str
    decreases |s|
  {
    if SpaceAt(s, 0) == 0 then s else TrimStart(s[SpaceAt(s, 0)..])
  }

  function TrimEnd(s: Str): Str
    decreases |s|
  {
    var n := |s|;
    if n >= 1 && SpaceAt(s, n - 1) == 1 then TrimEnd(s[..n - 1])
    else if n >= 2 && SpaceAt(s, n - 2) == 2 then TrimEnd(s[..n - 2])
    else if n >= 3 && SpaceAt(s, n - 3) == 3 then TrimEnd(s[..n - 3])
    else s
  }

  function Trim(s: Str): Str {
    TrimEnd(TrimStart(s))
  }

  /** from_utf8_lossy: what is not UTF-8 becomes U+FFFD. */
  function Lossy(bytes: seq<byte>): Str {
    if Utf8(bytes) then bytes else Repaired(bytes, 0)
  }

  function Repaired(bytes: seq<byte>, i: nat): Str
    decreases |bytes| - i
  {
    if i >= |bytes| then []
    else if CharLength(bytes, i) > 0 then
      bytes[i..i + CharLength(bytes, i)] + Repaired(bytes, i + CharLength(bytes, i))
    else [0xEF, 0xBF, 0xBD] + Repaired(bytes, i + BrokenLength(bytes, i))
  }

  /** The octets of a broken character: the longest start of a character, or one octet. */
  function BrokenLength(s: Str, i: nat): (n: nat)
    requires i < |s|
    ensures 0 < n <= 3
  {
    var b := s[i];
    if 0xE0 <= b <= 0xEF && Between(s, i + 1, if b == 0xE0 then 0xA0 else 0x80, if b == 0xED then 0x9F else 0xBF)
    then 2
    else if 0xF0 <= b <= 0xF4 && Between(s, i + 1, if b == 0xF0 then 0x90 else 0x80, if b == 0xF4 then 0x8F else 0xBF)
    then if Continuation(s, i + 2) then 3 else 2
    else 1
  }
}
