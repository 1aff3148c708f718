/** UTF-8 (section 3 of RFC 3629): the encoding behind `as_bytes` and `String::from_utf8`. */
module Utf8 {
  import opened Protocol

  function EncodeChar(c: char): (b: Bytes)
    ensures 1 <= |b| <= 4
  {
    var n := c as int;
    var n1 := n / 64;
    var n2 := n1 / 64;
    if n < 0x80 then [n]
    else if n < 0x800 then [0xC0 + n1, 0x80 + n % 64]
    else if n < 0x10000 then [0xE0 + n2, 0x80 + n1 % 64, 0x80 + n % 64]
    else [0xF0 + n2 / 64, 0x80 + n2 % 64, 0x80 + n1 % 64, 0x80 + n % 64]
  }

  function Encode(s: string): Bytes {
    if s == [] then [] else EncodeChar(s[0]) + Encode(s[1..])
  }

  /** One character of each length. */
  lemma KnownEncodings()
    ensures EncodeChar('\U{0024}') == [0x24]
    ensures EncodeChar('\U{00A3}') == [0xC2, 0xA3]
    ensures EncodeChar('\U{20AC}') == [0xE2, 0x82, 0xAC]
    ensures EncodeChar('\U{10348}') == [0xF0, 0x90, 0x8D, 0x88]
  {
  }

  lemma EncodeCons(c: char, s: string)
    ensures Encode([c] + s) == EncodeChar(c) + Encode(s)
  {
    assert ([c] + s)[0] == c && ([c] + s)[1..] == s;
  }

  predicate IsContinuation(b: Byte) {
    0x80 <= b < 0xC0
  }

  predicate IsScalar(n: int) {
    0 <= n < 0xD800 || 0xE000 <= n < 0x110000
  }

  /** The length of the sequence that a lead byte announces; 0 for a byte that leads nothing. */
  function LeadLength(b: Byte): nat {
    if b < 0x80 then 1
    else if 0xC0 <= b < 0xE0 then 2
    else if 0xE0 <= b < 0xF0 then 3
    else if 0xF0 <= b < 0xF8 then 4
    else 0
  }

  /** The number spread over the payload bits of a sequence of `k` bytes. */
  function Payload(b: Bytes, k: nat): int
    requires 1 <= k <= 4 && k <= |b|
  {
    var b0: int := b[0];
    if k == 1 then b0
    else if k == 2 then (b0 - 0xC0) * 64 + Low(b[1])
    else if k == 3 then ((b0 - 0xE0) * 64 + Low(b[1])) * 64 + Low(b[2])
    else (((b0 - 0xF0) * 64 + Low(b[1])) * 64 + Low(b[2])) * 64 + Low(b[3])
  }

  function Low(b: int): int {
    b - 0x80
  }

  /** The least code point that needs `k` bytes. */
  function Shortest(k: nat): int {
    if k <= 1 then 0 else if k == 2 then 0x80 else if k == 3 then 0x800 else 0x10000
  }

  predicate Continued(b: Bytes, k: nat)
    requires k <= |b|
  {
    (k > 1 ==> IsContinuation(b[1])) &&
    (k > 2 ==> IsContinuation(b[2])) &&
    (k > 3 ==> IsContinuation(b[3]))
  }

  /** The code point of the first sequence: not overlong, not a surrogate, not beyond U+10FFFF. */
  function DecodeFirst(b: Bytes): (r: Option<(char, nat)>)
    requires b != []
    ensures r.Some? ==> 1 <= r.value.1 <= |b| && r.value.1 == LeadLength(b[0])
    ensures r.Some? ==> Continued(b, r.value.1)
  {
    var k := LeadLength(b[0]);
    if k == 0 || |b| < k || !Continued(b, k) then None
    else
      var n := Payload(b, k);
      if n < Shortest(k) || !IsScalar(n) then None else Some((n as char, k))
  }

  /** Two texts one after the other, if both decode. */
  function Then(x: Option<string>, y: Option<string>): Option<string> {
    if x.Some? && y.Some? then Some(x.value + y.value) else None
  }

  function Decode(b: Bytes): Option<string>
    decreases |b|
  {
    if b == [] then Some([])
    else
      match DecodeFirst(b)
      case None => None
      case Some((c, k)) => Then(Some([c]), Decode(b[k..]))
  }

  /** `is_char_boundary`: the byte at the cut does not continue a sequence. */
  predicate IsBoundary(b: Bytes, at: nat)
    requires at <= |b|
  {
    at == |b| || !IsContinuation(b[at])
  }

  lemma DecodeFirstOfEncode(c: char, rest: Bytes)
    ensures DecodeFirst(EncodeChar(c) + rest) == Some((c, |EncodeChar(c)|))
  {
    var e, b := EncodeChar(c), EncodeChar(c) + rest;
    var k := |e|;
    assert b[0] == e[0] && (k > 1 ==> b[1] == e[1]) && (k > 2 ==> b[2] == e[2]) && (k > 3 ==> b[3] == e[3]);
    assert LeadLength(b[0]) == k;
    assert Payload(b, k) == c as int;
  }

  lemma EncodeOfDecodeFirst(b: Bytes)
    requires b != [] && DecodeFirst(b).Some?
    ensures EncodeChar(DecodeFirst(b).value.0) == b[..DecodeFirst(b).value.1]
  {
    var (c, k) := DecodeFirst(b).value;
    var e := EncodeChar(c);
    assert |e| == k;
    assert e[0] == b[0] && (k > 1 ==> e[1] == b[1]) && (k > 2 ==> e[2] == b[2]) && (k > 3 ==> e[3] == b[3]);
  }

  lemma SplitAt(b: Bytes, k: nat)
    requires k <= |b|
    ensures b[..k] + b[k..] == b
  {
  }

  lemma EncodePrepended(b: Bytes, rest: string)
    requires b != [] && DecodeFirst(b).Some?
    ensures Encode([DecodeFirst(b).value.0] + rest) == b[..DecodeFirst(b).value.1] + Encode(rest)
  {
    EncodeOfDecodeFirst(b);
    EncodeCons(DecodeFirst(b).value.0, rest);
  }

  /** Decoding undoes encoding, for every string. */
  lemma {:induction false} DecodeEncode(s: string)
    ensures Decode(Encode(s)) == Some(s)
  {
    if s != [] {
      DecodeFirstOfEncode(s[0], Encode(s[1..]));
      assert Encode(s)[|EncodeChar(s[0])|..] == Encode(s[1..]);
      DecodeEncode(s[1..]);
      assert [s[0]] + s[1..] == s;
    }
  }

  /** Encoding undoes decoding, for every byte sequence that decodes. */
  lemma {:induction false} EncodeDecode(b: Bytes)
    requires Decode(b).Some?
    ensures Encode(Decode(b).value) == b
    decreases |b|
  {
    if b != [] {
      var k := DecodeFirst(b).value.1;
      EncodeDecode(b[k..]);
      EncodePrepended(b, Decode(b[k..]).value);
      SplitAt(b, k);
    }
  }

  lemma DecodeFirstPrefix(a: Bytes, b: Bytes)
    requires a != [] && LeadLength(a[0]) <= |a|
    ensures DecodeFirst(a) == DecodeFirst(a + b)
  {
    var k := LeadLength(a[0]);
    assert (a + b)[0] == a[0];
    assert (k > 1 ==> (a + b)[1] == a[1]) && (k > 2 ==> (a + b)[2] == a[2]) && (k > 3 ==> (a + b)[3] == a[3]);
  }

  lemma ThenIsAssociative(x: Option<string>, y: Option<string>, z: Option<string>)
    ensures Then(x, Then(y, z)) == Then(Then(x, y), z)
  {
    if x.Some? && y.Some? && z.Some? {
      assert x.value + (y.value + z.value) == (x.value + y.value) + z.value;
    }
  }

  /** A text that decodes can be cut off the front of any byte sequence. */
  lemma {:induction false} DecodeAppend(a: Bytes, b: Bytes)
    requires Decode(a).Some?
    ensures Decode(a + b) == Then(Decode(a), Decode(b))
    decreases |a|
  {
    if a == [] {
      assert a + b == b;
      assert Decode(b).Some? ==> "" + Decode(b).value == Decode(b).value;
    } else {
      var (c, k) := DecodeFirst(a).value;
      DecodeFirstPrefix(a, b);
      assert (a + b)[k..] == a[k..] + b;
      DecodeAppend(a[k..], b);
      ThenIsAssociative(Some([c]), Decode(a[k..]), Decode(b));
    }
  }

  /** Cutting a valid text leaves two valid texts exactly when the cut is a char boundary. */
  lemma {:induction false} CutIsValidIffBoundary(a: Bytes, b: Bytes)
    requires Decode(a + b).Some?
    ensures Decode(a).Some? <==> IsBoundary(a + b, |a|)
    ensures Decode(a).Some? ==> Decode(b).Some?
    decreases |a|
  {
    if Decode(a).Some? {
      DecodeAppend(a, b);
      if b != [] {
        assert (a + b)[|a|] == b[0];
      }
    }
    if a != [] {
      var k := DecodeFirst(a + b).value.1;
      assert (a + b)[0] == a[0];
      if k <= |a| {
        DecodeFirstPrefix(a, b);
        assert (a + b)[k..] == a[k..] + b;
        CutIsValidIffBoundary(a[k..], b);
        assert |a| < |a + b| ==> (a + b)[|a|] == (a[k..] + b)[|a| - k];
      } else {
        assert Continued(a + b, k) && 1 <= |a| < k <= 4;
        assert IsContinuation((a + b)[|a|]);
        assert DecodeFirst(a).None?;
      }
    } else {
      assert a + b == b;
    }
  }
}
