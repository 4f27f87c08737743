/**
 * Strict UTF-8, as Python's `str.encode('utf-8')` and `bytes.decode('utf-8')`
 * use it: a string is a sequence of Unicode scalar values, the encoder emits
 * the shortest form, and the decoder rejects overlong forms, surrogates,
 * values above U+10FFFF, stray continuation bytes and truncated sequences.
 */
module Utf8 {
  import opened Common
  import opened Bytes

  predicate IsScalarValue(n: int) {
    0 <= n < 0xD800 || 0xE000 <= n < 0x11_0000
  }

  predicate IsContinuation(b: byte) {
    0x80 <= b < 0xC0
  }

  /** The shortest UTF-8 form of one scalar value. */
  function EncodeChar(c: char): (r: seq<byte>)
    ensures 1 <= |r| <= 4
    ensures forall k :: 1 <= k < |r| ==> IsContinuation(r[k])
  {
    var n := c as int;
    if n < 0x80 then [n]
    else if n < 0x800 then [0xC0 + n / 64, 0x80 + n % 64]
    else if n < 0x1_0000 then [0xE0 + n / 4096, 0x80 + (n / 64) % 64, 0x80 + n % 64]
    else [0xF0 + n / 262144, 0x80 + (n / 4096) % 64, 0x80 + (n / 64) % 64, 0x80 + n % 64]
  }

  function Encode(s: string): (r: seq<byte>)
    ensures |r| >= |s|
  {
    if s == [] then [] else EncodeChar(s[0]) + Encode(s[1..])
  }

  /**
   * The scalar value encoded at the start of `b` and the number of bytes it
   * takes, or None when `b` does not start with a well-formed sequence.
   */
  function DecodeFirst(b: seq<byte>): (r: Option<(char, nat)>)
    requires |b| > 0
    ensures r.Some? ==> 1 <= r.value.1 <= |b| && r.value.1 <= 4
  {
    var b0: int := b[0];
    if b0 < 0x80 then Some((b0 as char, 1))
    else if 0xC0 <= b0 < 0xE0 then
      if |b| < 2 || !IsContinuation(b[1]) then None
      else
        var n := (b0 - 0xC0) * 64 + (b[1] as int - 0x80);
        if n < 0x80 then None else Some((n as char, 2))
    else if 0xE0 <= b0 < 0xF0 then
      if |b| < 3 || !IsContinuation(b[1]) || !IsContinuation(b[2]) then None
      else
        var n := (b0 - 0xE0) * 4096 + (b[1] as int - 0x80) * 64 + (b[2] as int - 0x80);
        if n < 0x800 || !IsScalarValue(n) then None else Some((n as char, 3))
    else if 0xF0 <= b0 < 0xF8 then
      if |b| < 4 || !IsContinuation(b[1]) || !IsContinuation(b[2]) || !IsContinuation(b[3]) then None
      else
        var n := (b0 - 0xF0) * 262144 + (b[1] as int - 0x80) * 4096 + (b[2] as int - 0x80) * 64 + (b[3] as int - 0x80);
        if n < 0x1_0000 || 0x11_0000 <= n then None else Some((n as char, 4))
    else None
  }

  /** `bytes.decode('utf-8')`: None where Python raises UnicodeDecodeError. */
  function Decode(b: seq<byte>): (r: Option<string>)
    decreases |b|
  {
    if b == [] then Some([])
    else match DecodeFirst(b)
      case None => None
      case Some(first) =>
        match Decode(b[first.1..])
        case None => None
        case Some(rest) => Some([first.0] + rest)
  }

  lemma DivMod64(q: int, r: int)
    requires 0 <= q && 0 <= r < 64
    ensures (q * 64 + r) / 64 == q && (q * 64 + r) % 64 == r
  {
  }

  lemma Split64(n: int)
    requires 0 <= n
    ensures n == (n / 64) * 64 + n % 64
    ensures n / 4096 == (n / 64) / 64
    ensures n / 262144 == (n / 4096) / 64
  {
  }

  lemma {:induction false} DecodeFirstEncodeChar(c: char, rest: seq<byte>)
    ensures DecodeFirst(EncodeChar(c) + rest) == Some((c, |EncodeChar(c)|))
  {
    var n := c as int;
    var b := EncodeChar(c) + rest;
    Split64(n);
    Split64(n / 64);
    Split64(n / 4096);
    if n < 0x80 {
    } else if n < 0x800 {
      assert b[0] as int - 0xC0 == n / 64 && b[1] as int - 0x80 == n % 64;
    } else if n < 0x1_0000 {
      assert b[0] as int - 0xE0 == n / 4096 && b[1] as int - 0x80 == (n / 64) % 64 && b[2] as int - 0x80 == n % 64;
    } else {
      assert b[0] as int - 0xF0 == n / 262144 && b[1] as int - 0x80 == (n / 4096) % 64;
      assert b[2] as int - 0x80 == (n / 64) % 64 && b[3] as int - 0x80 == n % 64;
    }
  }

  lemma TwoByteEncodes(b: seq<byte>)
    requires |b| > 1 && 0xC0 <= b[0] < 0xE0 && DecodeFirst(b).Some?
    ensures EncodeChar(DecodeFirst(b).value.0) == b[..2]
  {
    var q, r: int := b[0] - 0xC0, b[1] - 0x80;
    DivMod64(q, r);
  }

  lemma ThreeByteEncodes(b: seq<byte>)
    requires |b| > 2 && 0xE0 <= b[0] < 0xF0 && DecodeFirst(b).Some?
    ensures EncodeChar(DecodeFirst(b).value.0) == b[..3]
  {
    var q, r1, r0: int := b[0] - 0xE0, b[1] - 0x80, b[2] - 0x80;
    DivMod64(q * 64 + r1, r0);
    DivMod64(q, r1);
    Split64((q * 64 + r1) * 64 + r0);
  }

  lemma FourByteEncodes(b: seq<byte>)
    requires |b| > 3 && 0xF0 <= b[0] < 0xF8 && DecodeFirst(b).Some?
    ensures EncodeChar(DecodeFirst(b).value.0) == b[..4]
  {
    var q, r2, r1, r0: int := b[0] - 0xF0, b[1] - 0x80, b[2] - 0x80, b[3] - 0x80;
    DivMod64((q * 64 + r2) * 64 + r1, r0);
    DivMod64(q * 64 + r2, r1);
    DivMod64(q, r2);
    var n := ((q * 64 + r2) * 64 + r1) * 64 + r0;
    Split64(n);
    Split64(n / 64);
  }

  /** The decoder accepts only the encoder's shortest forms. */
  lemma EncodeCharDecodeFirst(b: seq<byte>)
    requires |b| > 0 && DecodeFirst(b).Some?
    ensures EncodeChar(DecodeFirst(b).value.0) == b[..DecodeFirst(b).value.1]
  {
    if 0xC0 <= b[0] < 0xE0 {
      TwoByteEncodes(b);
    } else if 0xE0 <= b[0] < 0xF0 {
      ThreeByteEncodes(b);
    } else if 0xF0 <= b[0] {
      FourByteEncodes(b);
    }
  }

  /** Decoding the encoder's output gives the string back. */
  lemma {:induction false} DecodeEncode(s: string)
    ensures Decode(Encode(s)) == Some(s)
  {
    if s != [] {
      var e := EncodeChar(s[0]);
      var b := Encode(s);
      assert b == e + Encode(s[1..]);
      DecodeFirstEncodeChar(s[0], Encode(s[1..]));
      assert b[|e|..] == Encode(s[1..]);
      DecodeEncode(s[1..]);
      assert [s[0]] + s[1..] == s;
    }
  }

  /** Encoding what the decoder accepted gives back the same bytes. */
  lemma {:induction false} EncodeDecode(b: seq<byte>)
    requires Decode(b).Some?
    ensures Encode(Decode(b).value) == b
    decreases |b|
  {
    if b != [] {
      var first := DecodeFirst(b).value;
      EncodeCharDecodeFirst(b);
      EncodeDecode(b[first.1..]);
      assert b == b[..first.1] + b[first.1..];
    }
  }

  /** Equal encodings come from equal strings, so the byte length determines nothing ambiguous. */
  lemma EncodeInjective(s: string, t: string)
    requires Encode(s) == Encode(t)
    ensures s == t
  {
    DecodeEncode(s);
    DecodeEncode(t);
  }
}
