/**
 * `new Uint8Array(x)`, the first step of `bufferToBase64url`, for every
 * value a credential's `"convert"` leaf can hold: the bytes of an
 * ArrayBuffer; the elements of an array or an array-like object, each read
 * as a number and taken modulo 2^8; for any other value a length, giving
 * that many zero bytes, or a RangeError when the length is negative.
 * A number that is NaN is read as 0 throughout, as both the length and the
 * byte conversion of the ECMAScript standard do.
 */
module ByteViews {
  import opened Results
  import opened Records
  import opened Base64
  import opened Values

  predicate IsDecimalDigit(c: char) {
    '0' <= c <= '9'
  }

  /** A non-empty string of decimal digits: the numerals `Number(s)` reads without further rules. */
  predicate IsDecimal(s: string) {
    |s| > 0 && forall i :: 0 <= i < |s| ==> IsDecimalDigit(s[i])
  }

  function DecimalDigitValue(c: char): nat
    requires IsDecimalDigit(c)
  {
    c as int - '0' as int
  }

  /** The value of a string of decimal digits. */
  function DecimalValue(s: string): nat
    requires forall i :: 0 <= i < |s| ==> IsDecimalDigit(s[i])
  {
    if |s| == 0 then 0 else 10 * DecimalValue(s[..|s| - 1]) + DecimalDigitValue(s[|s| - 1])
  }

  /** `String(n)` for a non-negative integer: its decimal numeral, the key `obj[n]` reads. */
  function Decimal(n: nat): (s: string)
    ensures IsDecimal(s)
  {
    var last := ['0' + (n % 10) as char];
    if n < 10 then last else Decimal(n / 10) + last
  }

  /** Reading back the numeral `String(n)` gives `n`. */
  lemma {:induction false} DecimalRoundTrip(n: nat)
    ensures DecimalValue(Decimal(n)) == n
  {
    var s := Decimal(n);
    if n >= 10 {
      DecimalRoundTrip(n / 10);
      assert s[..|s| - 1] == Decimal(n / 10);
    }
  }

  /**
   * `Number(s)` with NaN read as 0: the value of a numeral of decimal
   * digits, 0 for every other string (the empty string is 0 as well).
   */
  function StringNumber(s: string): (n: nat)
    ensures IsDecimal(s) ==> n == DecimalValue(s)
    ensures !IsDecimal(s) ==> n == 0
  {
    if IsDecimal(s) then DecimalValue(s) else 0
  }

  /**
   * `Number(v)` with NaN read as 0. `null` and `false` are 0, `true` is 1;
   * `undefined`, an object and an ArrayBuffer are NaN. An array is the
   * number its `join(",")` spells: 0 when it is empty, NaN when the comma
   * shows, and with one element that element as a string, where a boolean
   * is no numeral.
   */
  function NumberOf(v: Value): int
    decreases v
  {
    match v
    case Num(n) => n
    case Bool(b) => if b then 1 else 0
    case Str(s) => StringNumber(s)
    case Arr(elems) =>
      if |elems| != 1 then 0
      else if elems[0].Bool? then 0
      else NumberOf(elems[0])
    case _ => 0
  }

  /** ToUint8: a number taken modulo 2^8. */
  function ToUint8(n: int): (b: uint8)
    ensures (b - n) % 256 == 0
  {
    n % 256
  }

  /** `obj.length` of an array-like object, clamped to 0 as ToLength does. */
  function ArrayLikeLength(props: Props<Value>): (n: nat)
    ensures Get(props, "length").None? ==> n == 0
    ensures Get(props, "length").Some? && NumberOf(Get(props, "length").value) >= 0 ==>
      n == NumberOf(Get(props, "length").value)
    ensures Get(props, "length").Some? && NumberOf(Get(props, "length").value) < 0 ==> n == 0
  {
    match Get(props, "length")
    case None => 0
    case Some(len) => if NumberOf(len) < 0 then 0 else NumberOf(len)
  }

  /** `obj[String(i)]`, `undefined` when absent. */
  function ElementAt(props: Props<Value>, i: nat): Value {
    match Get(props, Decimal(i))
    case None => Undefined
    case Some(v) => v
  }

  /** The zero bytes of a fresh buffer of length `n`. */
  function Zeros(n: nat): (z: seq<uint8>)
    ensures |z| == n && forall i :: 0 <= i < n ==> z[i] == 0
  {
    seq(n, _ => 0)
  }

  /** The bytes `new Uint8Array(v)` views, or the RangeError of a negative length. */
  function ViewBytes(v: Value): (r: Result<seq<uint8>>)
    ensures v.Bytes? ==> r == Success(v.bytes)
    ensures r.Failure? <==> v.Num? && v.n < 0
    ensures r.Failure? ==> r.error == RangeError
    ensures v.Arr? ==>
      r.Success? && |r.value| == |v.elems| &&
      forall i :: 0 <= i < |v.elems| ==> (r.value[i] - NumberOf(v.elems[i])) % 256 == 0
    ensures v.Obj? ==>
      r.Success? && |r.value| == ArrayLikeLength(v.props) &&
      forall i :: 0 <= i < |r.value| ==> (r.value[i] - NumberOf(ElementAt(v.props, i))) % 256 == 0
    ensures r.Success? && !(v.Bytes? || v.Arr? || v.Obj?) ==>
      |r.value| == NumberOf(v) && forall i :: 0 <= i < |r.value| ==> r.value[i] == 0
  {
    match v
    case Bytes(bytes) => Success(bytes)
    case Arr(elems) =>
      Success(seq(|elems|, i requires 0 <= i < |elems| => ToUint8(NumberOf(elems[i]))))
    case Obj(props) =>
      var n := ArrayLikeLength(props);
      Success(seq(n, i requires 0 <= i < n => ToUint8(NumberOf(ElementAt(props, i)))))
    case Num(n) => if n < 0 then Failure(RangeError) else Success(Zeros(n))
    case _ => Success(Zeros(NumberOf(v)))
  }

  /** An array of numbers that are all bytes views exactly those bytes. */
  lemma ArrayOfBytes(bytes: seq<uint8>)
    ensures ViewBytes(Arr(seq(|bytes|, i requires 0 <= i < |bytes| => Num(bytes[i])))) == Success(bytes)
  {
    var elems := seq(|bytes|, i requires 0 <= i < |bytes| => Num(bytes[i]));
    var r := ViewBytes(Arr(elems)).value;
    forall i | 0 <= i < |bytes|
      ensures r[i] == bytes[i]
    {
      assert NumberOf(elems[i]) == bytes[i];
    }
    assert r == bytes;
  }
}
