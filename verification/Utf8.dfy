/** UTF-8 encoding of text, and the decoding that inverts it. */
module Utf8 {
  import opened Prelude

  type Byte = b: int | 0 <= b < 256

  function EncodeChar(c: char): seq<Byte> {
    var n := c as int;
    if n < 0x80 then [n]
    else if n < 0x800 then [0xC0 + n / 64, 0x80 + n % 64]
    else if n < 0x1_0000 then [0xE0 + n / 4096, 0x80 + n / 64 % 64, 0x80 + n % 64]
    else [0xF0 + n / 26_2144, 0x80 + n / 4096 % 64, 0x80 + n / 64 % 64, 0x80 + n % 64]
  }

  function Encode(s: string): seq<Byte>
    decreases s
  {
    if s == "" then [] else EncodeChar(s[0]) + Encode(s[1..])
  }

  /** The number of bytes a lead byte announces. */
  function Width(lead: Byte): nat {
    if lead < 0x80 then 1 else if lead < 0xE0 then 2 else if lead < 0xF0 then 3 else 4
  }

  function CodePoint(b: seq<Byte>): int
    requires 1 <= |b| <= 4
  {
    var lead: int := b[0];
    if |b| == 1 then lead
    else if |b| == 2 then (lead - 0xC0) * 64 + Payload(b[1])
    else if |b| == 3 then (lead - 0xE0) * 4096 + Payload(b[1]) * 64 + Payload(b[2])
    else (lead - 0xF0) * 26_2144 + Payload(b[1]) * 4096 + Payload(b[2]) * 64 + Payload(b[3])
  }

  function Payload(continuation: Byte): int {
    continuation as int - 0x80
  }

  predicate IsScalar(n: int) {
    0 <= n < 0xD800 || 0xE000 <= n < 0x11_0000
  }

  function Decode(b: seq<Byte>): Option<string>
    decreases |b|
  {
    if b == [] then Some("")
    else
      var w := Width(b[0]);
      if |b| < w || !IsScalar(CodePoint(b[..w])) then None
      else
        match Decode(b[w..])
        case None => None
        case Some(s) => Some([CodePoint(b[..w]) as char] + s)
  }

  lemma Digits(n: nat)
    ensures n == n / 64 * 64 + n % 64
    ensures n == n / 4096 * 4096 + n / 64 % 64 * 64 + n % 64
    ensures n == n / 26_2144 * 26_2144 + n / 4096 % 64 * 4096 + n / 64 % 64 * 64 + n % 64
  {
    var high := n / 64;
    assert high / 64 == n / 4096 && high / 64 / 64 == n / 26_2144;
    assert high == high / 64 * 64 + high % 64;
    assert high / 64 == high / 64 / 64 * 64 + high / 64 % 64;
  }

  lemma CharRoundTrip(c: char)
    ensures var b := EncodeChar(c);
            1 <= |b| <= 4 && Width(b[0]) == |b| && CodePoint(b) == c as int
  {
    var n := c as int;
    Digits(n);
    if 0x80 <= n < 0x800 {
      assert n / 64 < 32;
    } else if 0x800 <= n < 0x1_0000 {
      assert n / 4096 < 16;
    } else if n >= 0x1_0000 {
      assert n / 26_2144 < 5;
    }
  }

  lemma {:induction false} RoundTrip(s: string)
    ensures Decode(Encode(s)) == Some(s)
    decreases s
  {
    if s != "" {
      var head, tail := EncodeChar(s[0]), Encode(s[1..]);
      CharRoundTrip(s[0]);
      RoundTrip(s[1..]);
      assert (head + tail)[..|head|] == head && (head + tail)[|head|..] == tail;
      assert (head + tail)[0] == head[0] && s == [s[0]] + s[1..];
    }
  }

  lemma {:induction false} EncodeAppend(a: string, b: string)
    ensures Encode(a + b) == Encode(a) + Encode(b)
    decreases a
  {
    if a == "" {
      assert a + b == b;
    } else {
      assert (a + b)[1..] == a[1..] + b;
      EncodeAppend(a[1..], b);
    }
  }

  /** The size of a text in bytes. */
  function Size(s: string): nat {
    |Encode(s)|
  }
}
