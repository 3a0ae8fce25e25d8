/** UTF-8 (section 3 of RFC 3629): the encoder, and a decoder that replaces what it cannot read. */
module Utf8 {
  import opened Wrappers

  type byte = b: int | 0 <= b < 0x100

  const REPLACEMENT: char := '\U{FFFD}'

  function EncodeChar(c: char): (r: seq<byte>)
    ensures 1 <= |r| <= 4
  {
    var n := c as int;
    if n < 0x80 then [n]
    else if n < 0x800 then [0xC0 + n / 0x40, 0x80 + n % 0x40]
    else
      var high := n / 0x40;
      if n < 0x10000 then [0xE0 + high / 0x40, 0x80 + high % 0x40, 0x80 + n % 0x40]
      else
        var higher := high / 0x40;
        [0xF0 + higher / 0x40, 0x80 + higher % 0x40, 0x80 + high % 0x40, 0x80 + n % 0x40]
  }

  function Encode(s: string): seq<byte> {
    if s == "" then [] else EncodeChar(s[0]) + Encode(s[1..])
  }

  /** How many bytes a sequence has, judged by its first byte. */
  function Width(first: byte): (r: nat)
    ensures r <= 4
  {
    if first < 0x80 then 1
    else if 0xC0 <= first < 0xE0 then 2
    else if 0xE0 <= first < 0xF0 then 3
    else if 0xF0 <= first < 0xF8 then 4
    else 0
  }

  predicate IsContinuation(b: byte) {
    0x80 <= b < 0xC0
  }

  /** The number spread over the payload bits of one sequence. */
  function Payload(s: seq<byte>): int
    requires 1 <= |s| <= 4 && |s| == Width(s[0])
  {
    if |s| == 1 then s[0]
    else if |s| == 2 then (s[0] as int - 0xC0) * 0x40 + (s[1] as int - 0x80)
    else if |s| == 3 then ((s[0] as int - 0xE0) * 0x40 + (s[1] as int - 0x80)) * 0x40 + (s[2] as int - 0x80)
    else
      (((s[0] as int - 0xF0) * 0x40 + (s[1] as int - 0x80)) * 0x40 + (s[2] as int - 0x80)) * 0x40 + (s[3] as int - 0x80)
  }

  /** The shortest form is the only valid one, and surrogates have none. */
  predicate IsScalar(n: int, width: nat) {
    && (if width == 1 then 0 <= n < 0x80
        else if width == 2 then 0x80 <= n < 0x800
        else if width == 3 then 0x800 <= n < 0x10000
        else 0x10000 <= n <= 0x10FFFF)
    && !(0xD800 <= n < 0xE000)
  }

  function DecodeChar(s: seq<byte>): (r: Option<char>)
    requires s != []
  {
    var w := Width(s[0]);
    if w == 0 || |s| < w || exists i | 1 <= i < w :: !IsContinuation(s[i]) then None
    else
      var n := Payload(s[..w]);
      if IsScalar(n, w) then Some(n as char) else None
  }

  function DecodeLossy(s: seq<byte>): string {
    if s == [] then ""
    else match DecodeChar(s)
         case Some(c) => [c] + DecodeLossy(s[Width(s[0])..])
         case None => [REPLACEMENT] + DecodeLossy(s[1..])
  }

  lemma PayloadOfEncoded(c: char)
    ensures var code := EncodeChar(c);
            && Width(code[0]) == |code|
            && Payload(code) == c as int
            && IsScalar(c as int, |code|)
            && forall i | 1 <= i < |code| :: IsContinuation(code[i])
  {
  }

  lemma CharRoundTrip(c: char, rest: seq<byte>)
    ensures DecodeChar(EncodeChar(c) + rest) == Some(c)
    ensures Width((EncodeChar(c) + rest)[0]) == |EncodeChar(c)|
  {
    var code := EncodeChar(c);
    var s := code + rest;
    PayloadOfEncoded(c);
    assert s[..|code|] == code;
    assert forall i | 1 <= i < |code| :: s[i] == code[i];
  }

  lemma SixBits(high: int, low: int)
    requires 0 <= low < 0x40
    ensures (high * 0x40 + low) / 0x40 == high && (high * 0x40 + low) % 0x40 == low
  {
  }

  /** The payload bits of a sequence, taken apart again. */
  lemma CodeOfPayload(code: seq<byte>)
    requires 1 <= |code| <= 4 && |code| == Width(code[0]) && forall i | 1 <= i < |code| :: IsContinuation(code[i])
    requires IsScalar(Payload(code), |code|)
    ensures EncodeChar(Payload(code) as char) == code
  {
    if |code| == 2 {
      SixBits(code[0] as int - 0xC0, code[1] as int - 0x80);
    } else if |code| == 3 {
      var high := (code[0] as int - 0xE0) * 0x40 + (code[1] as int - 0x80);
      SixBits(code[0] as int - 0xE0, code[1] as int - 0x80);
      SixBits(high, code[2] as int - 0x80);
    } else if |code| == 4 {
      var higher := (code[0] as int - 0xF0) * 0x40 + (code[1] as int - 0x80);
      var high := higher * 0x40 + (code[2] as int - 0x80);
      SixBits(code[0] as int - 0xF0, code[1] as int - 0x80);
      SixBits(higher, code[2] as int - 0x80);
      SixBits(high, code[3] as int - 0x80);
    }
  }

  /** Whatever is decoded to a character starts with that character's encoding. */
  lemma OnlyEncodings(s: seq<byte>)
    requires s != [] && DecodeChar(s).Some?
    ensures EncodeChar(DecodeChar(s).value) <= s
  {
    var code := s[..Width(s[0])];
    assert forall i | 1 <= i < |code| :: code[i] == s[i] && IsContinuation(s[i]);
    CodeOfPayload(code);
  }

  lemma DecodesFirst(c: char, rest: seq<byte>)
    ensures DecodeLossy(EncodeChar(c) + rest) == [c] + DecodeLossy(rest)
  {
    CharRoundTrip(c, rest);
    assert (EncodeChar(c) + rest)[|EncodeChar(c)|..] == rest;
  }

  lemma Reassociate<T>(a: seq<T>, b: seq<T>, c: seq<T>)
    ensures a + b + c == a + (b + c)
  {
  }

  lemma DecodesOne(s: string, rest: seq<byte>)
    requires s != ""
    ensures DecodeLossy(Encode(s) + rest) == [s[0]] + DecodeLossy(Encode(s[1..]) + rest)
  {
    Reassociate(EncodeChar(s[0]), Encode(s[1..]), rest);
    DecodesFirst(s[0], Encode(s[1..]) + rest);
  }

  lemma {:induction false} RoundTrip(s: string, rest: seq<byte>)
    ensures DecodeLossy(Encode(s) + rest) == s + DecodeLossy(rest)
  {
    if s == "" {
      assert Encode(s) + rest == rest;
    } else {
      DecodesOne(s, rest);
      RoundTrip(s[1..], rest);
      Reassociate([s[0]], s[1..], DecodeLossy(rest));
      assert s == [s[0]] + s[1..];
    }
  }
}
