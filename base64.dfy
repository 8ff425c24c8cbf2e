/**
 * Standard base64 as the browser's `btoa` and `atob` implement it: the
 * encoding of section 4 of RFC 4648 (with `=` padding), and the
 * "forgiving-base64 decode" of the WHATWG Infra Standard, which strips ASCII
 * whitespace and up to two trailing `=`, rejects a final quantum of one digit
 * and any character outside the alphabet, and discards the leftover bits of a
 * final two- or three-digit quantum.
 * Strings whose characters are all below U+0100 stand for byte sequences
 * ("binary strings"), as they do for those two functions.
 */
module Base64 {
  import opened Results

  type uint8 = b: int | 0 <= b < 256

  /** The value of one base64 digit. */
  type Sextet = i: int | 0 <= i < 64

  /** Table 1 of RFC 4648: the digit that encodes a value. */
  function Digit(i: Sextet): (c: char)
    ensures DigitValue(c) == Some(i)
  {
    if i < 26 then ('A' as int + i) as char
    else if i < 52 then ('a' as int + (i - 26)) as char
    else if i < 62 then ('0' as int + (i - 52)) as char
    else if i == 62 then '+'
    else '/'
  }

  /** Table 1 of RFC 4648 read backwards; None outside the alphabet. */
  function DigitValue(c: char): Option<Sextet>
  {
    if 'A' <= c <= 'Z' then Some(c as int - 'A' as int)
    else if 'a' <= c <= 'z' then Some(c as int - 'a' as int + 26)
    else if '0' <= c <= '9' then Some(c as int - '0' as int + 52)
    else if c == '+' then Some(62)
    else if c == '/' then Some(63)
    else None
  }

  predicate AllDigits(s: string) {
    forall i :: 0 <= i < |s| ==> DigitValue(s[i]).Some?
  }

  function Digits(xs: seq<Sextet>): (s: string)
    ensures |s| == |xs| && AllDigits(s)
  {
    seq(|xs|, i requires 0 <= i < |xs| => Digit(xs[i]))
  }

  function Sextets(s: string): (xs: seq<Sextet>)
    requires AllDigits(s)
    ensures |xs| == |s|
  {
    seq(|s|, i requires 0 <= i < |s| && DigitValue(s[i]).Some? => DigitValue(s[i]).value)
  }

  /** The four sextets of a full group of three bytes. */
  function Split(x: uint8, y: uint8, z: uint8): (g: seq<Sextet>)
    ensures |g| == 4
  {
    [x / 4, x % 4 * 16 + y / 16, y % 16 * 4 + z / 64, z % 64]
  }

  /** The three bytes of a full group of four sextets. */
  function Join(a: Sextet, b: Sextet, c: Sextet, d: Sextet): (t: seq<uint8>)
    ensures |t| == 3
  {
    [a * 4 + b / 16, b % 16 * 16 + c / 4, c % 4 * 64 + d]
  }

  /**
   * Splits bytes into 6-bit groups, most significant bits first; a final
   * group of one or two bytes gives two or three sextets, the missing bits
   * being zero (section 4 of RFC 4648).
   */
  function EncodeSextets(b: seq<uint8>): (xs: seq<Sextet>)
    decreases |b|
  {
    if |b| == 0 then []
    else if |b| == 1 then [b[0] / 4, b[0] % 4 * 16]
    else if |b| == 2 then [b[0] / 4, b[0] % 4 * 16 + b[1] / 16, b[1] % 16 * 4]
    else Split(b[0], b[1], b[2]) + EncodeSextets(b[3..])
  }

  /** Four sextets per full group of three bytes, and one more than the bytes of a final short group. */
  lemma {:induction false} EncodeSextetsLength(b: seq<uint8>)
    ensures |EncodeSextets(b)| == |b| / 3 * 4 + (if |b| % 3 == 0 then 0 else |b| % 3 + 1)
    decreases |b|
  {
    if |b| >= 3 {
      EncodeSextetsLength(b[3..]);
    }
  }

  /**
   * Joins sextets back into bytes; the low bits of a final group of two or
   * three sextets that do not fill a byte are discarded.
   */
  function DecodeSextets(xs: seq<Sextet>): (b: seq<uint8>)
    requires |xs| % 4 != 1
    decreases |xs|
  {
    if |xs| == 0 then []
    else if |xs| == 2 then [xs[0] as int * 4 + xs[1] as int / 16]
    else if |xs| == 3 then [xs[0] as int * 4 + xs[1] as int / 16, xs[1] as int % 16 * 16 + xs[2] as int / 4]
    else Join(xs[0], xs[1], xs[2], xs[3]) + DecodeSextets(xs[4..])
  }

  /** Three sextets per full group of four, and one fewer than the sextets of a final short group. */
  lemma {:induction false} DecodeSextetsLength(xs: seq<Sextet>)
    requires |xs| % 4 != 1
    ensures |DecodeSextets(xs)| == |xs| / 4 * 3 + (if |xs| % 4 == 0 then 0 else |xs| % 4 - 1)
    decreases |xs|
  {
    if |xs| >= 4 {
      assert (|xs| - 4) % 4 == |xs| % 4;
      DecodeSextetsLength(xs[4..]);
    }
  }

  /** The padding of section 4 of RFC 4648 after the digits of n bytes. */
  function PaddingFor(n: nat): (p: string)
    ensures |p| == if n % 3 == 1 then 2 else if n % 3 == 2 then 1 else 0
    ensures forall i :: 0 <= i < |p| ==> p[i] == '='
  {
    if n % 3 == 1 then "==" else if n % 3 == 2 then "=" else ""
  }

  /** The digits and the padding of n bytes fill whole quanta of four characters. */
  lemma PaddedLength(b: seq<uint8>)
    ensures (|EncodeSextets(b)| + |PaddingFor(|b|)|) % 4 == 0
  {
    EncodeSextetsLength(b);
    var quanta := if |b| % 3 == 0 then |b| / 3 else |b| / 3 + 1;
    assert |EncodeSextets(b)| + |PaddingFor(|b|)| == 4 * quanta;
    WholeQuanta(quanta);
  }

  /** Four characters a quantum: any number of quanta is a multiple of four long. */
  lemma WholeQuanta(k: nat)
    ensures (4 * k) % 4 == 0
  {
  }

  /** Base64 encoding of section 4 of RFC 4648, padded. */
  function Encode(b: seq<uint8>): (s: string)
    ensures |s| % 4 == 0
  {
    PaddedLength(b);
    Digits(EncodeSextets(b)) + PaddingFor(|b|)
  }

  /** A string whose characters all stand for bytes. */
  predicate IsBinaryString(s: string) {
    forall i :: 0 <= i < |s| ==> s[i] as int < 256
  }

  /** The binary string of a byte sequence (`String.fromCharCode` of each byte). */
  function Latin1(b: seq<uint8>): (s: string)
    ensures |s| == |b| && IsBinaryString(s)
    ensures forall i :: 0 <= i < |b| ==> s[i] as int == b[i]
  {
    seq(|b|, i requires 0 <= i < |b| => b[i] as char)
  }

  /** The bytes a binary string stands for ("isomorphic encode"). */
  function IsomorphicEncode(s: string): (b: seq<uint8>)
    requires IsBinaryString(s)
    ensures |b| == |s|
  {
    seq(|s|, i requires 0 <= i < |s| => s[i] as int)
  }

  /** `btoa`: InvalidCharacterError unless every character is below U+0100. */
  function Btoa(s: string): (r: Result<string>)
    ensures r.Success? <==> IsBinaryString(s)
  {
    if IsBinaryString(s) then Success(Encode(IsomorphicEncode(s))) else Failure(InvalidCharacter)
  }

  predicate IsAsciiWhitespace(c: char) {
    c == '\t' || c == '\n' || c as int == 0x0C || c == '\r' || c == ' '
  }

  /** The characters of `s` that are not ASCII whitespace, in order. */
  function StripWhitespace(s: string): (r: string)
    ensures forall i :: 0 <= i < |r| ==> !IsAsciiWhitespace(r[i])
    ensures (forall i :: 0 <= i < |s| ==> !IsAsciiWhitespace(s[i])) ==> r == s
  {
    if s == [] then []
    else if IsAsciiWhitespace(s[0]) then StripWhitespace(s[1..])
    else [s[0]] + StripWhitespace(s[1..])
  }

  /** Stripping keeps exactly the characters of `s` that are not ASCII whitespace. */
  lemma {:induction false} StripWhitespaceMembers(s: string)
    ensures forall c :: c in StripWhitespace(s) <==> c in s && !IsAsciiWhitespace(c)
  {
    if s != [] {
      StripWhitespaceMembers(s[1..]);
      assert s == [s[0]] + s[1..];
    }
  }

  /** Removes one or two trailing `=` from a string whose length is a multiple of four. */
  function StripPadding(d: string): string
  {
    if |d| % 4 == 0 && |d| >= 2 && d[|d| - 2] == '=' && d[|d| - 1] == '=' then d[..|d| - 2]
    else if |d| % 4 == 0 && |d| >= 1 && d[|d| - 1] == '=' then d[..|d| - 1]
    else d
  }

  /** `atob`: forgiving-base64 decode, returned as a binary string. */
  function Atob(data: string): (r: Result<string>)
    ensures r.Success? ==> IsBinaryString(r.value)
  {
    var d := StripPadding(StripWhitespace(data));
    if |d| % 4 == 1 || !AllDigits(d) then Failure(InvalidCharacter)
    else Success(Latin1(DecodeSextets(Sextets(d))))
  }

  /** Splitting a byte into its top six and low two bits, and back. */
  lemma SplitTopSix(a: uint8, rest: int)
    requires 0 <= rest < 16
    ensures (a / 4) as int * 4 + (a % 4 * 16 + rest) / 16 == a
    ensures (a % 4 * 16 + rest) % 16 == rest
  {
  }

  /** Splitting a byte into its top four and low four bits, and back. */
  lemma SplitTopFour(b: uint8, rest: int)
    requires 0 <= rest < 4
    ensures (b / 16) % 16 * 16 + (b % 16 * 4 + rest) / 4 == b
    ensures (b % 16 * 4 + rest) % 4 == rest
  {
  }

  /** Splitting a byte into its top two and low six bits, and back. */
  lemma SplitTopTwo(c: uint8)
    ensures (c / 64) % 4 * 64 + c % 64 == c
  {
  }

  /** The three bytes a full group of four sextets stands for. */
  lemma DecodeGroup(xs: seq<Sextet>)
    requires |xs| >= 4 && |xs| % 4 != 1
    ensures DecodeSextets(xs) == Join(xs[0], xs[1], xs[2], xs[3]) + DecodeSextets(xs[4..])
  {
  }

  /** A final group of one byte: two sextets, decoded back to the byte. */
  lemma RoundTripOneByte(b: seq<uint8>)
    requires |b| == 1
    ensures |EncodeSextets(b)| == 2 && DecodeSextets(EncodeSextets(b)) == b
  {
    SplitTopSix(b[0], 0);
  }

  /** A final group of two bytes: three sextets, decoded back to the two bytes. */
  lemma RoundTripTwoBytes(b: seq<uint8>)
    requires |b| == 2
    ensures |EncodeSextets(b)| == 3 && DecodeSextets(EncodeSextets(b)) == b
  {
    SplitTopSix(b[0], b[1] / 16);
    SplitTopFour(b[1], 0);
    assert DecodeSextets(EncodeSextets(b)) == [b[0], b[1]];
  }

  /** Three bytes cut into four sextets and joined again. */
  lemma JoinSplit(x: uint8, y: uint8, z: uint8)
    ensures var g := Split(x, y, z); Join(g[0], g[1], g[2], g[3]) == [x, y, z]
  {
    SplitTopSix(x, y / 16);
    SplitTopFour(y, z / 64);
    SplitTopTwo(z);
  }

  /** The first four sextets of three or more bytes are their first group. */
  lemma EncodeGroup(b: seq<uint8>)
    requires |b| >= 3
    ensures EncodeSextets(b) == Split(b[0], b[1], b[2]) + EncodeSextets(b[3..])
  {
  }

  /** A full group of three bytes, followed by sextets that decode on their own. */
  lemma RoundTripGroup(x: uint8, y: uint8, z: uint8, rest: seq<Sextet>, tail: seq<uint8>)
    requires |rest| % 4 != 1 && DecodeSextets(rest) == tail
    ensures |Split(x, y, z) + rest| % 4 != 1 && DecodeSextets(Split(x, y, z) + rest) == [x, y, z] + tail
  {
    var g := Split(x, y, z);
    var xs := g + rest;
    assert (|rest| + 4) % 4 == |rest| % 4;
    assert xs[4..] == rest;
    assert xs[..4] == g;
    DecodeGroup(xs);
    JoinSplit(x, y, z);
  }

  /** Decoding the sextets of any byte sequence gives the bytes back. */
  lemma {:induction false} DecodeEncodeSextets(b: seq<uint8>)
    ensures |EncodeSextets(b)| % 4 != 1
    ensures DecodeSextets(EncodeSextets(b)) == b
    decreases |b|
  {
    if |b| == 0 {
      assert EncodeSextets(b) == [];
    } else if |b| == 1 {
      RoundTripOneByte(b);
    } else if |b| == 2 {
      RoundTripTwoBytes(b);
    } else {
      DecodeEncodeSextets(b[3..]);
      EncodeGroup(b);
      RoundTripGroup(b[0], b[1], b[2], EncodeSextets(b[3..]), b[3..]);
      assert b == [b[0], b[1], b[2]] + b[3..];
    }
  }

  /** The `=` padding of an encoding is exactly what forgiving decoding strips. */
  lemma StripPaddingOfEncode(b: seq<uint8>)
    ensures StripPadding(Encode(b)) == Digits(EncodeSextets(b))
  {
    var digits := Digits(EncodeSextets(b));
    var e := Encode(b);
    assert e == digits + PaddingFor(|b|);
    if |b| % 3 == 1 {
      assert e[..|e| - 2] == digits;
    } else if |b| % 3 == 2 {
      assert e[|e| - 2] == digits[|digits| - 1];
      assert e[..|e| - 1] == digits;
    } else if |e| >= 1 {
      assert e == digits;
      assert DigitValue(e[|e| - 1]).Some?;
    }
  }

  /** Section 4 of RFC 4648 encoding then forgiving decoding is the identity. */
  lemma AtobOfEncode(b: seq<uint8>)
    ensures Atob(Encode(b)) == Success(Latin1(b))
  {
    var xs := EncodeSextets(b);
    var e := Encode(b);
    assert forall i :: 0 <= i < |e| ==> !IsAsciiWhitespace(e[i]) by {
      forall i | 0 <= i < |e| ensures !IsAsciiWhitespace(e[i]) {
        if i < |xs| {
          assert e[i] == Digit(xs[i]);
        } else {
          assert e[i] == PaddingFor(|b|)[i - |xs|];
        }
      }
    }
    StripPaddingOfEncode(b);
    assert Sextets(Digits(xs)) == xs;
    DecodeEncodeSextets(b);
  }

  /** `btoa` of the binary string of any bytes succeeds with their encoding. */
  lemma BtoaOfLatin1(b: seq<uint8>)
    ensures Btoa(Latin1(b)) == Success(Encode(b))
  {
    assert IsomorphicEncode(Latin1(b)) == b;
  }
}
