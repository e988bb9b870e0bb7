/** Strict UTF-8: the encoder of `str.encode("utf-8")` and the decoder of `bytes.decode("utf-8")`. */
module Utf8 {
  import opened Wrappers

  type Byte = b: int | 0 <= b < 256

  type Bytes = seq<Byte>

  function EncodeChar(c: char): (r: Bytes)
    ensures r != []
  {
    var n := c as int;
    if n < 0x80 then [n]
    else if n < 0x800 then [0xC0 + n / 64, 0x80 + n % 64]
    else if n < 0x10000 then [0xE0 + n / 4096, 0x80 + n / 64 % 64, 0x80 + n % 64]
    else [0xF0 + n / 262144, 0x80 + n / 4096 % 64, 0x80 + n / 64 % 64, 0x80 + n % 64]
  }

  function Encode(s: string): Bytes {
    if s == [] then [] else EncodeChar(s[0]) + Encode(s[1..])
  }

  predicate Continuation(b: Byte) { 0x80 <= b < 0xC0 }

  /** The scalar value of a code point, unless it is a surrogate or out of range. */
  function Scalar(n: int): Option<char> {
    if 0 <= n < 0xD800 || 0xE000 <= n < 0x110000 then Some(n as char) else None
  }

  /** The payload of a continuation byte. */
  function Low(b: Byte): int { b - 0x80 }

  /** The code point at the front, its encoded length, and the least value that length is for. */
  function Front(b: Bytes): Option<(int, nat, int)>
    requires b != []
  {
    var lead: int := b[0];
    if lead < 0x80 then Some((lead, 1, 0))
    else if 0xC0 <= lead < 0xE0 && |b| >= 2 && Continuation(b[1]) then
      Some(((lead - 0xC0) * 64 + Low(b[1]), 2, 0x80))
    else if 0xE0 <= lead < 0xF0 && |b| >= 3 && Continuation(b[1]) && Continuation(b[2]) then
      Some(((lead - 0xE0) * 4096 + Low(b[1]) * 64 + Low(b[2]), 3, 0x800))
    else if 0xF0 <= lead < 0xF8 && |b| >= 4 && Continuation(b[1]) && Continuation(b[2]) && Continuation(b[3]) then
      Some(((lead - 0xF0) * 262144 + Low(b[1]) * 4096 + Low(b[2]) * 64 + Low(b[3]), 4, 0x10000))
    else None
  }

  /** One character and the bytes after it; overlong forms, surrogates and truncations are rejected. */
  function DecodeChar(b: Bytes): (r: Option<(char, Bytes)>)
    requires b != []
    ensures r.Some? ==> |r.value.1| < |b|
  {
    match Front(b)
    case None => None
    case Some((n, length, least)) =>
      if n < least || length > |b| then None
      else match Scalar(n)
        case None => None
        case Some(c) => Some((c, b[length..]))
  }

  function Decode(b: Bytes): Option<string>
    decreases |b|
  {
    if b == [] then Some("")
    else match DecodeChar(b)
      case None => None
      case Some((c, rest)) =>
        match Decode(rest)
        case None => None
        case Some(s) => Some([c] + s)
  }

  /** Base-64 digits recompose the code point. */
  lemma Recompose(n: nat)
    ensures n == n / 64 * 64 + n % 64
    ensures n / 64 == n / 4096 * 64 + n / 64 % 64
    ensures n / 4096 == n / 262144 * 64 + n / 4096 % 64
  {
    assert n / 64 / 64 == n / 4096 && n / 4096 / 64 == n / 262144;
  }

  lemma FrontOfShort(n: nat, b: Bytes)
    requires 0x80 <= n < 0x800 && |b| >= 2 && b[0] == 0xC0 + n / 64 && b[1] == 0x80 + n % 64
    ensures Front(b) == Some((n, 2, 0x80))
  {
    Recompose(n);
  }

  lemma FrontOfMiddle(n: nat, b: Bytes)
    requires 0x800 <= n < 0x10000 && |b| >= 3 && b[0] == 0xE0 + n / 4096 && b[1] == 0x80 + n / 64 % 64
    requires b[2] == 0x80 + n % 64
    ensures Front(b) == Some((n, 3, 0x800))
  {
    Recompose(n);
  }

  lemma FrontOfLong(n: nat, b: Bytes)
    requires 0x10000 <= n < 0x110000 && |b| >= 4 && b[0] == 0xF0 + n / 262144 && b[1] == 0x80 + n / 4096 % 64
    requires b[2] == 0x80 + n / 64 % 64 && b[3] == 0x80 + n % 64
    ensures Front(b) == Some((n, 4, 0x10000))
  {
    Recompose(n);
  }

  /** The code point and length an encoded character announces. */
  lemma FrontOfEncoded(c: char, b: Bytes)
    requires EncodeChar(c) <= b
    ensures Front(b).Some? && Front(b).value.0 == c as int && Front(b).value.1 == |EncodeChar(c)|
    ensures Front(b).value.2 <= c as int
  {
    var (n, e) := (c as int, EncodeChar(c));
    assert forall i :: 0 <= i < |e| ==> b[i] == e[i];
    if n < 0x80 {
      assert b[0] == e[0];
    } else if n < 0x800 {
      FrontOfShort(n, b);
    } else if n < 0x10000 {
      FrontOfMiddle(n, b);
    } else {
      FrontOfLong(n, b);
    }
  }

  lemma DecodeEncodedChar(c: char, rest: Bytes)
    ensures DecodeChar(EncodeChar(c) + rest) == Some((c, rest))
  {
    var e := EncodeChar(c);
    assert e <= e + rest && (e + rest)[|e|..] == rest;
    FrontOfEncoded(c, e + rest);
    assert Scalar(c as int) == Some(c);
  }

  /** Decoding undoes encoding on every string. */
  lemma {:induction false} DecodeEncode(s: string)
    ensures Decode(Encode(s)) == Some(s)
  {
    if s != [] {
      DecodeEncodedChar(s[0], Encode(s[1..]));
      DecodeEncode(s[1..]);
      assert s == [s[0]] + s[1..];
    }
  }

  lemma EncodeOfFront(b: Bytes, c: char)
    requires b != [] && Front(b).Some?
    requires var (n, length, least) := Front(b).value; n == c as int && n >= least && length <= |b|
    ensures EncodeChar(c) == b[..Front(b).value.1]
  {
    var (n, length, least) := Front(b).value;
    var e := EncodeChar(c);
    if length == 1 {
      assert e == [b[0]];
    } else if length == 2 {
      assert n / 64 == b[0] - 0xC0;
      assert e == [b[0], b[1]];
    } else if length == 3 {
      assert n / 4096 == b[0] - 0xE0 && n / 64 == (b[0] - 0xE0) * 64 + Low(b[1]);
      assert e == [b[0], b[1], b[2]];
    } else {
      FourDigits(b[0] - 0xF0, Low(b[1]), Low(b[2]), Low(b[3]));
      assert e == [b[0], b[1], b[2], b[3]];
    }
  }

  lemma FourDigits(p: int, q: int, r: int, s: int)
    requires 0 <= p && 0 <= q < 64 && 0 <= r < 64 && 0 <= s < 64
    ensures var n := p * 262144 + q * 4096 + r * 64 + s;
            n / 262144 == p && n / 4096 % 64 == q && n / 64 % 64 == r && n % 64 == s
  {
    var n := p * 262144 + q * 4096 + r * 64 + s;
    LastDigit(p * 4096 + q * 64 + r, s);
    LastDigit(p * 64 + q, r);
    LastDigit(p, q);
    DivideAgain(n, 64);
    DivideAgain(n, 4096);
  }

  /** Floor division by a product is floor division twice. */
  lemma DivideAgain(n: nat, d: nat)
    requires d == 64 || d == 4096
    ensures n / (64 * d) == n / d / 64
  {
    var a := n / d;
    assert n == d * a + n % d && a == 64 * (a / 64) + a % 64;
    assert n == 64 * d * (a / 64) + (d * (a % 64) + n % d);
  }

  lemma LastDigit(a: int, d: int)
    requires 0 <= a && 0 <= d < 64
    ensures (a * 64 + d) / 64 == a && (a * 64 + d) % 64 == d
  {
  }

  lemma EncodeDecodedChar(b: Bytes)
    requires b != [] && DecodeChar(b).Some?
    ensures b == EncodeChar(DecodeChar(b).value.0) + DecodeChar(b).value.1
  {
    var (n, length, least) := Front(b).value;
    EncodeOfFront(b, DecodeChar(b).value.0);
    assert b == b[..length] + b[length..];
  }

  /** Whatever decodes is the encoding of its decoding: no byte string has a second spelling. */
  lemma {:induction false} EncodeDecode(b: Bytes)
    requires Decode(b).Some?
    ensures Encode(Decode(b).value) == b
    decreases |b|
  {
    if b != [] {
      EncodeDecodedChar(b);
      var (c, rest) := DecodeChar(b).value;
      EncodeDecode(rest);
      var s := Decode(b).value;
      assert s[0] == c && s[1..] == Decode(rest).value;
    }
  }

  lemma EncodeInjective(s: string, t: string)
    requires Encode(s) == Encode(t)
    ensures s == t
  {
    DecodeEncode(s);
    DecodeEncode(t);
  }

  lemma {:induction false} EncodeAppend(s: string, t: string)
    ensures Encode(s + t) == Encode(s) + Encode(t)
  {
    if s == [] {
      assert s + t == t;
    } else {
      assert (s + t)[0] == s[0] && (s + t)[1..] == s[1..] + t;
      EncodeAppend(s[1..], t);
    }
  }
}
