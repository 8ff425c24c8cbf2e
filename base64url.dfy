/**
 * The base64url codec of the library: standard base64 with the URL and
 * filename safe alphabet of section 5 of RFC 4648 and without padding
 * (section 3.2 of RFC 4648), built on `btoa` and `atob`.
 */
module Base64Url {
  import opened Results
  import opened Base64

  /** The characters of the URL and filename safe alphabet. */
  predicate IsUrlChar(c: char) {
    'A' <= c <= 'Z' || 'a' <= c <= 'z' || '0' <= c <= '9' || c == '-' || c == '_'
  }

  /** `s.replace(/from/g, to)` for a one-character pattern. */
  function ReplaceAll(s: string, from: char, to: char): (r: string)
    ensures |r| == |s|
    ensures forall i :: 0 <= i < |s| ==> r[i] == (if s[i] == from then to else s[i])
  {
    seq(|s|, i requires 0 <= i < |s| => if s[i] == from then to else s[i])
  }

  /** `s.replace(/c/g, "")`: the characters of `s` other than `c`, in order. */
  function RemoveAll(s: string, c: char): (r: string)
    ensures forall i :: 0 <= i < |r| ==> r[i] != c
    ensures (forall i :: 0 <= i < |s| ==> s[i] != c) ==> r == s
  {
    if s == [] then []
    else if s[0] == c then RemoveAll(s[1..], c)
    else [s[0]] + RemoveAll(s[1..], c)
  }

  /** Removing `c` keeps exactly the characters of `s` other than `c`. */
  lemma {:induction false} RemoveAllMembers(s: string, c: char)
    ensures forall d :: d in RemoveAll(s, c) <==> d in s && d != c
  {
    if s != [] {
      RemoveAllMembers(s[1..], c);
      assert s == [s[0]] + s[1..];
    }
  }

  /** The digit of section 5 of RFC 4648 for a value. */
  function UrlDigit(i: Sextet): (c: char)
    ensures IsUrlChar(c)
  {
    if i == 62 then '-' else if i == 63 then '_' else Digit(i)
  }

  function UrlDigits(xs: seq<Sextet>): (s: string)
    ensures |s| == |xs|
    ensures forall i :: 0 <= i < |s| ==> IsUrlChar(s[i])
  {
    seq(|xs|, i requires 0 <= i < |xs| => UrlDigit(xs[i]))
  }

  /** Swapping the alphabet back turns URL-safe digits into standard ones. */
  lemma SwapBack(xs: seq<Sextet>)
    ensures ReplaceAll(ReplaceAll(UrlDigits(xs), '-', '+'), '_', '/') == Digits(xs)
  {
  }

  /** The text `bufferToBase64url` returns for a buffer. */
  function Base64UrlEncode(buffer: seq<uint8>): (r: string)
    ensures forall i :: 0 <= i < |r| ==> IsUrlChar(r[i])
    ensures r == UrlDigits(EncodeSextets(buffer))
  {
    var urlDigits := UrlDigits(EncodeSextets(buffer));
    var swapped := ReplaceAll(ReplaceAll(Encode(buffer), '+', '-'), '/', '_');
    assert swapped == urlDigits + PaddingFor(|buffer|);
    RemoveAllSplits(urlDigits, PaddingFor(|buffer|), '=');
    RemoveAll(swapped, '=')
  }

  lemma {:induction false} RemoveAllSplits(a: string, p: string, c: char)
    requires forall i :: 0 <= i < |a| ==> a[i] != c
    requires forall i :: 0 <= i < |p| ==> p[i] == c
    ensures RemoveAll(a + p, c) == a
    decreases |a| + |p|
  {
    if a == [] {
      if p != [] {
        assert (a + p)[1..] == [] + p[1..];
        RemoveAllSplits([], p[1..], c);
      }
    } else {
      assert (a + p)[1..] == a[1..] + p;
      RemoveAllSplits(a[1..], p, c);
    }
  }

  /** The `=` the decoder appends: `"==".slice(0, (4 - len % 4) % 4)`. */
  function Padding(s: string): (p: string)
    ensures |p| == (if |s| % 4 == 1 then 2 else (4 - |s| % 4) % 4)
    ensures forall i :: 0 <= i < |p| ==> p[i] == '='
    ensures |s| % 4 != 1 <==> (|s| + |p|) % 4 == 0
  {
    var n := (4 - |s| % 4) % 4;
    "=="[..if n < 2 then n else 2]  // `slice` stops at the end of "=="
  }

  /** The byte `byteView[i] = str.charCodeAt(i)` stores: the code modulo 256. */
  function CharCodes(str: string): (b: seq<uint8>)
    ensures |b| == |str|
  {
    seq(|str|, i requires 0 <= i < |str| => str[i] as int % 256)
  }

  /** The buffer `base64urlToBuffer` returns for a string, or what it throws. */
  function Base64UrlDecode(s: string): (r: Result<seq<uint8>>)
  {
    var base64String := ReplaceAll(ReplaceAll(s, '-', '+'), '_', '/') + Padding(s);
    var str :- Atob(base64String);
    Success(CharCodes(str))
  }

  /** `bufferToBase64url`: collects the binary string, then `btoa` and the alphabet swap. */
  method BufferToBase64url(buffer: seq<uint8>) returns (base64urlString: string)
    ensures base64urlString == Base64UrlEncode(buffer)
  {
    var str := "";
    for i := 0 to |buffer|
      invariant str == Latin1(buffer[..i])
    {
      str := str + [buffer[i] as char];
    }
    assert buffer[..|buffer|] == buffer;
    BtoaOfLatin1(buffer);
    var base64String := Btoa(str).value;
    base64urlString := RemoveAll(ReplaceAll(ReplaceAll(base64String, '+', '-'), '/', '_'), '=');
  }

  /** `base64urlToBuffer`: pads, swaps the alphabet back, `atob`, then fills a byte array. */
  method Base64urlToBuffer(baseurl64String: string) returns (r: Result<seq<uint8>>)
    ensures r == Base64UrlDecode(baseurl64String)
  {
    var padding := Padding(baseurl64String);
    var base64String := ReplaceAll(ReplaceAll(baseurl64String, '-', '+'), '_', '/') + padding;
    var decoded := Atob(base64String);
    if decoded.Failure? {
      return Failure(decoded.error);
    }
    var str := decoded.value;
    var byteView := new uint8[|str|];
    for i := 0 to |str|
      invariant forall j :: 0 <= j < i ==> byteView[j] == str[j] as int % 256
    {
      byteView[i] := str[i] as int % 256;
    }
    assert byteView[..] == CharCodes(str);
    r := Success(byteView[..]);
  }

  /** The decoder re-adds exactly the padding the encoder stripped. */
  lemma PaddingRestored(buffer: seq<uint8>)
    ensures Padding(Base64UrlEncode(buffer)) == PaddingFor(|buffer|)
  {
    var n := |buffer|;
    var len := |Base64UrlEncode(buffer)|;
    EncodeSextetsLength(buffer);
    assert len == n / 3 * 4 + (if n % 3 == 0 then 0 else n % 3 + 1);
    assert len % 4 == (if n % 3 == 0 then 0 else n % 3 + 1);
  }

  /** Before `atob`, the decoder has rebuilt the padded standard encoding. */
  lemma StandardFormRestored(buffer: seq<uint8>)
    ensures var u := Base64UrlEncode(buffer);
      ReplaceAll(ReplaceAll(u, '-', '+'), '_', '/') + Padding(u) == Encode(buffer)
  {
    SwapBack(EncodeSextets(buffer));
    PaddingRestored(buffer);
  }

  /** `charCodeAt` reads back the bytes a binary string was built from. */
  lemma CharCodesOfLatin1(b: seq<uint8>)
    ensures CharCodes(Latin1(b)) == b
  {
    var c := CharCodes(Latin1(b));
    assert forall i :: 0 <= i < |b| ==> c[i] == b[i];
  }

  /** Decoding undoes encoding, for every buffer including the empty one. */
  lemma RoundTrip(buffer: seq<uint8>)
    ensures Base64UrlDecode(Base64UrlEncode(buffer)) == Success(buffer)
  {
    var u := Base64UrlEncode(buffer);
    StandardFormRestored(buffer);
    assert ReplaceAll(ReplaceAll(u, '-', '+'), '_', '/') + Padding(u) == Encode(buffer);
    AtobOfEncode(buffer);
    var str := Latin1(buffer);
    assert Atob(Encode(buffer)) == Success(str);
    CharCodesOfLatin1(buffer);
  }

  /**
   * A string of 4k+1 characters without ASCII whitespace is rejected: the
   * two `=` appended leave a final quantum `atob` cannot accept.
   */
  lemma ShortFinalQuantumRejected(s: string)
    requires |s| % 4 == 1
    requires forall i :: 0 <= i < |s| ==> !IsAsciiWhitespace(s[i])
    ensures Base64UrlDecode(s).Failure?
  {
    var t := ReplaceAll(ReplaceAll(s, '-', '+'), '_', '/') + Padding(s);
    assert forall i :: 0 <= i < |t| ==> !IsAsciiWhitespace(t[i]);
    assert StripWhitespace(t) == t;
    assert StripPadding(t) == t;
    assert DigitValue(t[|t| - 1]).None?;
  }
}
