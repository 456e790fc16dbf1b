/**
 * The two encodings a basic-authentication header goes through:
 * `str.encode()` (UTF-8, RFC 3629) and `base64.b64encode` (the base 64
 * alphabet of section 4 of RFC 4648, with `=` padding).  Each comes with a
 * decoder, and decoding undoes encoding.
 */
module Encoding {
  import opened Wrappers

  type Byte = b: int | 0 <= b < 256

  /** A UTF-8 continuation byte, `10xxxxxx`. */
  predicate IsContinuation(b: Byte)
  {
    0x80 <= b < 0xC0
  }

  /** Code points that are Unicode scalar values: the values a `char` holds. */
  predicate IsScalar(n: int)
  {
    0 <= n < 0xD800 || 0xE000 <= n < 0x11_0000
  }

  /** The UTF-8 encoding of one character: one to four bytes by the size of its code point. */
  function EncodeChar(c: char): (r: seq<Byte>)
    ensures 1 <= |r| <= 4
    ensures |r| == 1 <==> c as int < 0x80
    ensures |r| > 1 ==> forall i :: 1 <= i < |r| ==> IsContinuation(r[i])
  {
    var n := c as int;
    if n < 0x80 then [n]
    else if n < 0x800 then [0xC0 + n / 64, 0x80 + n % 64]
    else if n < 0x1_0000 then [0xE0 + n / 4096, 0x80 + n / 64 % 64, 0x80 + n % 64]
    else [0xF0 + n / 262144, 0x80 + n / 4096 % 64, 0x80 + n / 64 % 64, 0x80 + n % 64]
  }

  /** `s.encode()`: the characters' encodings one after another. */
  function EncodeUtf8(s: string): (r: seq<Byte>)
    ensures |r| >= |s|
  {
    if s == [] then [] else EncodeChar(s[0]) + EncodeUtf8(s[1..])
  }

  /**
   * Strict UTF-8 decoding: a lead byte announces the length of its
   * sequence, which must be complete, in shortest form, and name a scalar
   * value.  `None` is a decoding error.
   */
  function DecodeUtf8(bs: seq<Byte>): (r: Option<string>)
    decreases |bs|
  {
    if bs == [] then Some([])
    else
      match DecodeFirst(bs)
      case None => None
      case Some((c, k)) =>
        match DecodeUtf8(bs[k..])
        case None => None
        case Some(rest) => Some([c] + rest)
  }

  /** The first character of `bs` and the number of bytes it takes. */
  function DecodeFirst(bs: seq<Byte>): (r: Option<(char, nat)>)
    requires bs != []
    ensures r.Some? ==> 1 <= r.value.1 <= |bs|
  {
    var b0 := bs[0] as int;
    if b0 < 0x80 then Some((b0 as char, 1))
    else if 0xC0 <= b0 < 0xE0 && |bs| >= 2 && IsContinuation(bs[1]) then
      var n := Join2(b0 - 0xC0, bs[1]);
      if n < 0x80 then None else Some((n as char, 2))
    else if 0xE0 <= b0 < 0xF0 && |bs| >= 3 && IsContinuation(bs[1]) && IsContinuation(bs[2]) then
      var n := Join2(Join2(b0 - 0xE0, bs[1]), bs[2]);
      if n < 0x800 || !IsScalar(n) then None else Some((n as char, 3))
    else if 0xF0 <= b0 < 0xF8 && |bs| >= 4 && IsContinuation(bs[1]) && IsContinuation(bs[2]) && IsContinuation(bs[3]) then
      var n := Join2(Join2(Join2(b0 - 0xF0, bs[1]), bs[2]), bs[3]);
      if n < 0x1_0000 || !IsScalar(n) then None else Some((n as char, 4))
    else None
  }

  /** Appends the six payload bits of a continuation byte to `high`. */
  function Join2(high: int, b: Byte): int
  {
    high * 64 + (b as int - 0x80)
  }

  /** Splitting a code point into six-bit groups and joining them back gives it again. */
  lemma SplitJoin(n: nat)
    ensures Join2(n / 64, 0x80 + n % 64) == n
  {
  }

  /** The first character of an encoding followed by anything is read back whole. */
  lemma DecodeFirstEncodeChar(c: char, rest: seq<Byte>)
    ensures DecodeFirst(EncodeChar(c) + rest) == Some((c, |EncodeChar(c)|))
  {
    var n := c as int;
    if n < 0x80 {
    } else if n < 0x800 {
      DecodeTwoBytes(c, rest);
    } else if n < 0x1_0000 {
      DecodeThreeBytes(c, rest);
    } else {
      DecodeFourBytes(c, rest);
    }
  }

  lemma DecodeTwoBytes(c: char, rest: seq<Byte>)
    requires 0x80 <= c as int < 0x800
    ensures DecodeFirst(EncodeChar(c) + rest) == Some((c, 2))
  {
    var n := c as int;
    var bs := EncodeChar(c) + rest;
    assert bs[0] == 0xC0 + n / 64 && bs[1] == 0x80 + n % 64;
    SplitJoin(n);
  }

  lemma DecodeThreeBytes(c: char, rest: seq<Byte>)
    requires 0x800 <= c as int < 0x1_0000
    ensures DecodeFirst(EncodeChar(c) + rest) == Some((c, 3))
  {
    var n := c as int;
    var bs := EncodeChar(c) + rest;
    assert bs[0] == 0xE0 + n / 4096 && bs[1] == 0x80 + n / 64 % 64 && bs[2] == 0x80 + n % 64;
    SplitJoin(n / 64);
    SplitJoin(n);
    assert n / 64 / 64 == n / 4096;
  }

  lemma DecodeFourBytes(c: char, rest: seq<Byte>)
    requires 0x1_0000 <= c as int
    ensures DecodeFirst(EncodeChar(c) + rest) == Some((c, 4))
  {
    var n := c as int;
    var bs := EncodeChar(c) + rest;
    assert bs[0] == 0xF0 + n / 262144 && bs[1] == 0x80 + n / 4096 % 64;
    assert bs[2] == 0x80 + n / 64 % 64 && bs[3] == 0x80 + n % 64;
    SplitJoin(n / 4096);
    SplitJoin(n / 64);
    SplitJoin(n);
    assert n / 64 / 64 == n / 4096 && n / 4096 / 64 == n / 262144;
  }

  /** Decoding undoes `s.encode()`. */
  lemma {:induction false} Utf8RoundTrip(s: string)
    ensures DecodeUtf8(EncodeUtf8(s)) == Some(s)
  {
    if s != [] {
      var e := EncodeChar(s[0]);
      var tail := EncodeUtf8(s[1..]);
      DecodeFirstEncodeChar(s[0], tail);
      assert (e + tail)[|e|..] == tail;
      Utf8RoundTrip(s[1..]);
      assert [s[0]] + s[1..] == s;
    }
  }

  /** A 6-bit group, the unit base 64 works in. */
  type Sextet = n: int | 0 <= n < 64

  /** The base 64 alphabet of section 4 of RFC 4648: `A`-`Z`, `a`-`z`, `0`-`9`, `+`, `/`. */
  function Alphabet(n: Sextet): (c: char)
    ensures c != '='
  {
    if n < 26 then ('A' as int + n) as char
    else if n < 52 then ('a' as int + n - 26) as char
    else if n < 62 then ('0' as int + n - 52) as char
    else if n == 62 then '+'
    else '/'
  }

  /** The value a character of the alphabet stands for; `None` for any other character. */
  function AlphabetIndex(c: char): (r: Option<nat>)
    ensures r.Some? ==> r.value < 64
  {
    if 'A' <= c <= 'Z' then Some(c as int - 'A' as int)
    else if 'a' <= c <= 'z' then Some(c as int - 'a' as int + 26)
    else if '0' <= c <= '9' then Some(c as int - '0' as int + 52)
    else if c == '+' then Some(62)
    else if c == '/' then Some(63)
    else None
  }

  lemma AlphabetIndexInverse(n: Sextet)
    ensures AlphabetIndex(Alphabet(n)) == Some(n)
  {
  }

  /**
   * `base64.b64encode`: each group of three bytes becomes four characters;
   * a final group of one or two bytes is padded with `=` to four.
   */
  function EncodeBase64(s: seq<Byte>): (r: string)
    decreases |s|
  {
    if |s| == 0 then []
    else if |s| == 1 then Final1(s[0])
    else if |s| == 2 then Final2(s[0], s[1])
    else Block(s[0], s[1], s[2]) + EncodeBase64(s[3..])
  }

  /** Three bytes as four characters. */
  function Block(a: Byte, b: Byte, c: Byte): (r: string)
    ensures |r| == 4 && r[3] != '='
  {
    [Alphabet(a / 4), Alphabet(a % 4 * 16 + b / 16), Alphabet(b % 16 * 4 + c / 64), Alphabet(c % 64)]
  }

  /** One final byte: two characters and two `=`. */
  function Final1(a: Byte): (r: string)
    ensures |r| == 4 && r[2] == '=' && r[3] == '='
  {
    [Alphabet(a / 4), Alphabet(a % 4 * 16), '=', '=']
  }

  /** Two final bytes: three characters and one `=`. */
  function Final2(a: Byte, b: Byte): (r: string)
    ensures |r| == 4 && r[2] != '=' && r[3] == '='
  {
    [Alphabet(a / 4), Alphabet(a % 4 * 16 + b / 16), Alphabet(b % 16 * 4), '=']
  }

  /** Decoding of padded base 64; `None` for a length that is not a multiple of four or a character outside the alphabet. */
  function DecodeBase64(t: string): (r: Option<seq<Byte>>)
    decreases |t|
  {
    if |t| == 0 then Some([])
    else if |t| < 4 then None
    else if |t| == 4 && t[2] == '=' && t[3] == '=' then DecodeFinal1(t)
    else if |t| == 4 && t[3] == '=' then DecodeFinal2(t)
    else
      match (DecodeBlock(t[..4]), DecodeBase64(t[4..]))
      case (Some(g), Some(rest)) => Some(g + rest)
      case _ => None
  }

  /** Four characters of the alphabet as three bytes. */
  function DecodeBlock(q: string): (r: Option<seq<Byte>>)
    requires |q| == 4
  {
    match (AlphabetIndex(q[0]), AlphabetIndex(q[1]), AlphabetIndex(q[2]), AlphabetIndex(q[3]))
    case (Some(a), Some(b), Some(c), Some(d)) => Some([a * 4 + b / 16, b % 16 * 16 + c / 4, c % 4 * 64 + d])
    case _ => None
  }

  /** Two characters of the alphabet and `==` as one byte. */
  function DecodeFinal1(q: string): (r: Option<seq<Byte>>)
    requires |q| == 4
  {
    match (AlphabetIndex(q[0]), AlphabetIndex(q[1]))
    case (Some(a), Some(b)) => Some([a * 4 + b / 16])
    case _ => None
  }

  /** Three characters of the alphabet and `=` as two bytes. */
  function DecodeFinal2(q: string): (r: Option<seq<Byte>>)
    requires |q| == 4
  {
    match (AlphabetIndex(q[0]), AlphabetIndex(q[1]), AlphabetIndex(q[2]))
    case (Some(a), Some(b), Some(c)) => Some([a * 4 + b / 16, b % 16 * 16 + c / 4])
    case _ => None
  }

  lemma DecodeBlockInverse(a: Byte, b: Byte, c: Byte)
    ensures DecodeBlock(Block(a, b, c)) == Some([a, b, c])
  {
    var m1 := a % 4 * 16 + b / 16;
    var m2 := b % 16 * 4 + c / 64;
    AlphabetIndexInverse(a / 4);
    AlphabetIndexInverse(m1);
    AlphabetIndexInverse(m2);
    AlphabetIndexInverse(c % 64);
    assert m1 / 16 == a % 4 && m1 % 16 == b / 16;
    assert m2 / 4 == b % 16 && m2 % 4 == c / 64;
  }

  lemma DecodeFinal1Inverse(a: Byte)
    ensures DecodeFinal1(Final1(a)) == Some([a])
  {
    AlphabetIndexInverse(a / 4);
    AlphabetIndexInverse(a % 4 * 16);
  }

  lemma DecodeFinal2Inverse(a: Byte, b: Byte)
    ensures DecodeFinal2(Final2(a, b)) == Some([a, b])
  {
    var m := a % 4 * 16 + b / 16;
    AlphabetIndexInverse(a / 4);
    AlphabetIndexInverse(m);
    AlphabetIndexInverse(b % 16 * 4);
    assert m / 16 == a % 4 && m % 16 == b / 16;
  }

  /** Decoding undoes `base64.b64encode`. */
  lemma {:induction false} Base64RoundTrip(s: seq<Byte>)
    ensures DecodeBase64(EncodeBase64(s)) == Some(s)
    decreases |s|
  {
    if |s| == 1 {
      DecodeFinal1Inverse(s[0]);
      assert [s[0]] == s;
    } else if |s| == 2 {
      DecodeFinal2Inverse(s[0], s[1]);
      assert [s[0], s[1]] == s;
    } else if |s| >= 3 {
      DecodeBlockInverse(s[0], s[1], s[2]);
      Base64RoundTrip(s[3..]);
      DecodeAfterBlock(Block(s[0], s[1], s[2]), EncodeBase64(s[3..]), [s[0], s[1], s[2]], s[3..]);
      assert [s[0], s[1], s[2]] + s[3..] == s;
    }
  }

  /** A full group followed by more text decodes to the group's bytes followed by the rest's. */
  lemma DecodeAfterBlock(q: string, t: string, g: seq<Byte>, rest: seq<Byte>)
    requires |q| == 4 && q[3] != '='
    requires DecodeBlock(q) == Some(g) && DecodeBase64(t) == Some(rest)
    ensures DecodeBase64(q + t) == Some(g + rest)
  {
    assert (q + t)[..4] == q && (q + t)[4..] == t;
  }

  /** Every three bytes, or fewer at the end, take four characters. */
  lemma {:induction false} EncodedLength(s: seq<Byte>)
    ensures |EncodeBase64(s)| == 4 * ((|s| + 2) / 3)
    decreases |s|
  {
    if |s| >= 3 {
      EncodedLength(s[3..]);
      assert (|s| + 2) / 3 == (|s[3..]| + 2) / 3 + 1;
    }
  }

  /** A character of the alphabet or padding. */
  predicate IsBase64Char(c: char)
  {
    c == '=' || AlphabetIndex(c).Some?
  }

  /** Every character of an encoding is in the alphabet or is padding. */
  lemma {:induction false} EncodedCharacters(s: seq<Byte>)
    ensures forall i :: 0 <= i < |EncodeBase64(s)| ==> IsBase64Char(EncodeBase64(s)[i])
    decreases |s|
  {
    if |s| >= 3 {
      EncodedCharacters(s[3..]);
      DecodeBlockInverse(s[0], s[1], s[2]);
      var q := Block(s[0], s[1], s[2]);
      assert forall i :: 0 <= i < 4 ==> IsBase64Char(q[i]);
    } else if |s| == 2 {
      DecodeFinal2Inverse(s[0], s[1]);
    } else if |s| == 1 {
      DecodeFinal1Inverse(s[0]);
    }
  }
}
