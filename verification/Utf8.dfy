/**
 UTF-8 (RFC 3629): encoding of a string and the strict decoder that Python's bytes.decode applies.
 */
module Utf8 {
  import opened Option

  type Byte = b: int | 0 <= b < 256

  function EncodeChar(c: char): (r: seq<Byte>)
    ensures 1 <= |r| <= 4
  {
    var n := c as int;
    if n < 0x80 then [n]
    else if n < 0x800 then [0xC0 + n / 64, 0x80 + n % 64]
    else if n < 0x1_0000 then [0xE0 + n / 4096, 0x80 + n / 64 % 64, 0x80 + n % 64]
    else [0xF0 + n / 262144, 0x80 + n / 4096 % 64, 0x80 + n / 64 % 64, 0x80 + n % 64]
  }

  function Encode(s: string): seq<Byte> {
    if s == "" then [] else EncodeChar(s[0]) + Encode(s[1..])
  }

  predicate Continuation(b: Byte) {
    0x80 <= b < 0xC0
  }

  // The six bits a continuation byte carries.
  function Payload(b: Byte): int {
    b as int - 0x80
  }

  predicate Scalar(n: int) {
    0 <= n < 0xD800 || 0xE000 <= n < 0x11_0000
  }

  // The scalar value at the front of b and how many bytes it took; overlong forms and surrogates are refused.
  function DecodeChar(b: seq<Byte>): (r: Option<(char, nat)>)
    requires b != []
    ensures r.Some? ==> 1 <= r.value.1 <= |b|
  {
    var lead: int := b[0];
    if lead < 0x80 then Some((lead as char, 1))
    else if 0xC2 <= lead < 0xE0 && |b| >= 2 && Continuation(b[1]) then
      Some((((lead - 0xC0) * 64 + Payload(b[1])) as char, 2))
    else if 0xE0 <= lead < 0xF0 && |b| >= 3 && Continuation(b[1]) && Continuation(b[2]) then
      var n := (lead - 0xE0) * 4096 + Payload(b[1]) * 64 + Payload(b[2]);
      if n >= 0x800 && Scalar(n) then Some((n as char, 3)) else None
    else if 0xF0 <= lead < 0xF5 && |b| >= 4 && Continuation(b[1]) && Continuation(b[2]) && Continuation(b[3]) then
      var n := (lead - 0xF0) * 262144 + Payload(b[1]) * 4096 + Payload(b[2]) * 64 + Payload(b[3]);
      if n >= 0x1_0000 && Scalar(n) then Some((n as char, 4)) else None
    else None
  }

  function Decode(b: seq<Byte>): Option<string> {
    if b == [] then Some("")
    else
      match DecodeChar(b)
      case None => None
      case Some((c, k)) =>
        match Decode(b[k..])
        case None => None
        case Some(s) => Some([c] + s)
  }

  lemma DecodeEncodedChar(c: char, rest: seq<Byte>)
    ensures DecodeChar(EncodeChar(c) + rest) == Some((c, |EncodeChar(c)|))
  {
    var n := c as int;
    if 0x80 <= n < 0x800 {
      assert n == n / 64 * 64 + n % 64;
    } else if 0x800 <= n < 0x1_0000 {
      assert n / 64 / 64 == n / 4096;
      assert n == n / 4096 * 4096 + n / 64 % 64 * 64 + n % 64;
    } else if 0x1_0000 <= n {
      assert n / 64 / 64 == n / 4096 && n / 4096 / 64 == n / 262144;
      assert n == n / 262144 * 262144 + n / 4096 % 64 * 4096 + n / 64 % 64 * 64 + n % 64;
    }
  }

  lemma {:induction false} DecodeEncode(s: string)
    ensures Decode(Encode(s)) == Some(s)
  {
    if s != "" {
      var head, tail := EncodeChar(s[0]), Encode(s[1..]);
      DecodeEncodedChar(s[0], tail);
      assert (head + tail)[|head|..] == tail;
      DecodeEncode(s[1..]);
      assert s == [s[0]] + s[1..];
    }
  }

  lemma DecodedChar(b: seq<Byte>)
    requires b != [] && DecodeChar(b).Some?
    ensures EncodeChar(DecodeChar(b).value.0) == b[..DecodeChar(b).value.1]
  {
    var (c, k) := DecodeChar(b).value;
    var lead: int := b[0];
    if k == 2 {
      DivMod(lead - 0xC0, Payload(b[1]));
    } else if k == 3 {
      DivMod((lead - 0xE0) * 64 + Payload(b[1]), Payload(b[2]));
      DivMod(lead - 0xE0, Payload(b[1]));
      assert c as int / 4096 == c as int / 64 / 64;
    } else if k == 4 {
      FourBytes(lead - 0xF0, Payload(b[1]), Payload(b[2]), Payload(b[3]));
    }
  }

  lemma DivMod(a: int, b: int)
    requires 0 <= a && 0 <= b < 64
    ensures (a * 64 + b) / 64 == a && (a * 64 + b) % 64 == b
  {
  }

  lemma FourBytes(a: int, b: int, c: int, d: int)
    requires 0 <= a && 0 <= b < 64 && 0 <= c < 64 && 0 <= d < 64
    ensures var n := a * 262144 + b * 4096 + c * 64 + d;
            n / 262144 == a && n / 4096 % 64 == b && n / 64 % 64 == c && n % 64 == d
  {
    var n := a * 262144 + b * 4096 + c * 64 + d;
    DivMod((a * 64 + b) * 64 + c, d);
    DivMod(a * 64 + b, c);
    DivMod(a, b);
    assert n == ((a * 64 + b) * 64 + c) * 64 + d;
    assert n / 64 / 64 == n / 4096 && n / 4096 / 64 == n / 262144;
  }

  // The decoder accepts exactly the encodings: no overlong form, no surrogate, nothing truncated.
  lemma {:induction false} DecodeIff(b: seq<Byte>, s: string)
    ensures Decode(b) == Some(s) <==> b == Encode(s)
    decreases |b|
  {
    DecodeEncode(s);
    if b != [] && Decode(b) == Some(s) {
      var k := DecodeChar(b).value.1;
      DecodedChar(b);
      DecodeIff(b[k..], s[1..]);
      assert b == b[..k] + b[k..];
    }
  }

  // Distinct texts have distinct encodings.
  lemma EncodeInjective(s: string, t: string)
    requires Encode(s) == Encode(t)
    ensures s == t
  {
    DecodeEncode(s);
    DecodeEncode(t);
  }
}
