/** Secrets hidden from a casual reader (crates/snxcore/src/util.rs): a repeating mask, written in hexadecimal. */
module Obfuscation {
  import opened Wrappers

  type byte = bv8

  const ROW_1: seq<byte> := [
    45, 79, 68, 73, 70, 73, 69, 68, 38, 87, 48, 82, 79, 80, 69, 82, 84, 89, 51, 72, 69, 69, 84, 55, 73, 84, 72, 47, 43]
  const ROW_2: seq<byte> := [
    52, 72, 69, 51, 72, 69, 69, 84, 41, 36, 51, 63, 44, 36, 33, 48, 63, 33, 53, 63, 48, 50, 47, 48, 37, 50, 52, 41, 37]
  const ROW_3: seq<byte> := [51, 46, 53, 44, 44, 16, 38, 55, 63, 55, 48, 63, 47, 34, 42, 37, 35, 52, 51]

  const XOR_TABLE: seq<byte> := ROW_1 + ROW_2 + ROW_3

  /** A table no entry of which leaves a byte as it is, or touches the top bit. */
  predicate IsMask(table: seq<byte>) {
    table != [] && forall k | 0 <= k < |table| :: 0 < table[k] < 128
  }

  type Table = t: seq<byte> | IsMask(t) witness [1]

  lemma FirstRowIsMask()
    ensures IsMask(ROW_1)
  {
  }

  lemma SecondRowIsMask()
    ensures IsMask(ROW_2)
  {
  }

  lemma ThirdRowIsMask()
    ensures IsMask(ROW_3)
  {
  }

  lemma XorTableIsMask()
    ensures IsMask(XOR_TABLE)
  {
    FirstRowIsMask();
    SecondRowIsMask();
    ThirdRowIsMask();
  }

  function Mask(table: Table, i: nat): (m: byte)
    ensures 0 < m < 128
  {
    table[i % |table|]
  }

  function TranslateByte(table: Table, i: nat, c: byte): byte {
    var v := (c % 255) ^ Mask(table, i);
    if v == 0 then 255 else v
  }

  function Reversed<T>(s: seq<T>): (r: seq<T>)
    ensures |r| == |s| && forall k | 0 <= k < |s| :: r[k] == s[|s| - 1 - k]
  {
    seq(|s|, k requires 0 <= k < |s| => s[|s| - 1 - k])
  }

  /** Every byte is masked by its place, and the result is written last byte first. */
  function Translate(table: Table, data: seq<byte>): (r: seq<byte>)
    ensures |r| == |data|
    ensures forall k | 0 <= k < |data| :: r[k] == TranslateByte(table, |data| - 1 - k, data[|data| - 1 - k])
  {
    seq(|data|, k requires 0 <= k < |data| => TranslateByte(table, |data| - 1 - k, data[|data| - 1 - k]))
  }

  // ----- Hexadecimal text -----

  function HexDigit(n: byte): char {
    if n == 0 then '0' else if n == 1 then '1' else if n == 2 then '2' else if n == 3 then '3'
    else if n == 4 then '4' else if n == 5 then '5' else if n == 6 then '6' else if n == 7 then '7'
    else if n == 8 then '8' else if n == 9 then '9' else if n == 10 then 'a' else if n == 11 then 'b'
    else if n == 12 then 'c' else if n == 13 then 'd' else if n == 14 then 'e' else 'f'
  }

  function HexValue(c: char): Option<byte> {
    match c
    case '0' => Some(0) case '1' => Some(1) case '2' => Some(2) case '3' => Some(3)
    case '4' => Some(4) case '5' => Some(5) case '6' => Some(6) case '7' => Some(7)
    case '8' => Some(8) case '9' => Some(9)
    case 'a' => Some(10) case 'b' => Some(11) case 'c' => Some(12)
    case 'd' => Some(13) case 'e' => Some(14) case 'f' => Some(15)
    case 'A' => Some(10) case 'B' => Some(11) case 'C' => Some(12)
    case 'D' => Some(13) case 'E' => Some(14) case 'F' => Some(15)
    case _ => None
  }

  /** Capital digits have the same value. */
  lemma CaseDoesNotMatter(n: byte)
    requires n < 16
    ensures HexValue(HexDigit(n)) == Some(n)
    ensures HexValue('A') == HexValue('a') && HexValue('B') == HexValue('b') && HexValue('C') == HexValue('c')
    ensures HexValue('D') == HexValue('d') && HexValue('E') == HexValue('e') && HexValue('F') == HexValue('f')
  {
  }

  function EncodeHex(data: seq<byte>): string {
    if data == [] then "" else [HexDigit(data[0] >> 4), HexDigit(data[0] & 15)] + EncodeHex(data[1..])
  }

  function DecodeHex(text: string): Option<seq<byte>> {
    if text == "" then Some([])
    else if |text| == 1 then None
    else
      var high, low, rest := HexValue(text[0]), HexValue(text[1]), DecodeHex(text[2..]);
      if high.Some? && low.Some? && rest.Some? then Some([(high.value << 4) | low.value] + rest.value) else None
  }

  lemma HexDigitReadsBack(n: byte)
    requires n < 16
    ensures HexValue(HexDigit(n)) == Some(n)
  {
  }

  lemma {:induction false} HexRoundTrip(data: seq<byte>)
    ensures DecodeHex(EncodeHex(data)) == Some(data)
  {
    if data != [] {
      var b := data[0];
      HexDigitReadsBack(b >> 4);
      HexDigitReadsBack(b & 15);
      assert ((b >> 4) << 4) | (b & 15) == b;
      assert EncodeHex(data)[2..] == EncodeHex(data[1..]);
      HexRoundTrip(data[1..]);
      assert data == [b] + data[1..];
    }
  }

  /** Exactly the texts of an even number of hexadecimal digits can be read. */
  lemma {:induction false} HexReadable(text: string)
    ensures DecodeHex(text).Some? <==> |text| % 2 == 0 && forall c | c in text :: HexValue(c).Some?
  {
    if |text| >= 2 {
      HexReadable(text[2..]);
      assert text == [text[0], text[1]] + text[2..];
    } else if |text| == 1 {
      assert |text| % 2 == 1;
    }
  }

  // ----- Hiding and reading back -----

  function Obfuscate(table: Table, data: seq<byte>): string {
    EncodeHex(Translate(table, data))
  }

  function Deobfuscated(table: Table, text: string): Option<seq<byte>> {
    match DecodeHex(text)
    case None => None
    case Some(unhexed) => Some(Reversed(Translate(table, Reversed(unhexed))))
  }

  method Deobfuscate(table: Table, text: string) returns (r: Result<seq<byte>, string>)
    ensures r.Ok? <==> |text| % 2 == 0 && forall c | c in text :: HexValue(c).Some?
    ensures r.Ok? ==> Deobfuscated(table, text) == Some(r.value)
  {
    HexReadable(text);
    var hex := DecodeHex(text);
    if hex == None {
      return Err("not hexadecimal");
    }
    var unhexed := hex.value;
    unhexed := Reversed(unhexed);
    var decoded := Translate(table, unhexed);
    decoded := Reversed(decoded);
    r := Ok(decoded);
  }

  /** What comes back in place of a byte: two byte values at each place are lost. */
  function ReadBack(table: Table, i: nat, c: byte): byte {
    if c == 0 then 255 else if c == 255 ^ Mask(table, i) then Mask(table, i) else c
  }

  function ReadBackAll(table: Table, data: seq<byte>): (r: seq<byte>)
    ensures |r| == |data| && forall i | 0 <= i < |data| :: r[i] == ReadBack(table, i, data[i])
  {
    seq(|data|, i requires 0 <= i < |data| => ReadBack(table, i, data[i]))
  }

  /** A masked byte masked again. */
  lemma ByteReadsBack(table: Table, i: nat, c: byte)
    ensures TranslateByte(table, i, TranslateByte(table, i, c)) == ReadBack(table, i, c)
    ensures ReadBack(table, i, c) == c <==> c != 0 && c != 255 ^ Mask(table, i)
  {
  }

  lemma LooksTheSame(table: Table, i: nat, c: byte, d: byte)
    requires ReadBack(table, i, c) == ReadBack(table, i, d)
    ensures TranslateByte(table, i, c) == TranslateByte(table, i, d)
  {
  }

  /** No byte is one that would not come back as itself: zero, and one value that depends on the place. */
  predicate Recoverable(table: Table, data: seq<byte>) {
    forall i | 0 <= i < |data| :: data[i] != 0 && data[i] != 255 ^ Mask(table, i)
  }

  /** Every hidden secret can be read, and what comes back is known byte by byte. */
  lemma ReadsBackAs(table: Table, data: seq<byte>)
    ensures Deobfuscated(table, Obfuscate(table, data)) == Some(ReadBackAll(table, data))
  {
    var shown := Translate(table, data);
    HexRoundTrip(shown);
    var back := Reversed(Translate(table, Reversed(shown)));
    forall i | 0 <= i < |data|
      ensures back[i] == ReadBack(table, i, data[i])
    {
      assert Reversed(shown)[i] == TranslateByte(table, i, data[i]);
      ByteReadsBack(table, i, data[i]);
    }
    assert back == ReadBackAll(table, data);
  }

  /** A secret survives exactly when it holds no byte that the mask loses. */
  lemma RoundTripIff(table: Table, data: seq<byte>)
    ensures Deobfuscated(table, Obfuscate(table, data)) == Some(data) <==> Recoverable(table, data)
  {
    ReadsBackAs(table, data);
    var back := ReadBackAll(table, data);
    forall i | 0 <= i < |data|
      ensures back[i] == data[i] <==> data[i] != 0 && data[i] != 255 ^ Mask(table, i)
    {
      ByteReadsBack(table, i, data[i]);
    }
    if Recoverable(table, data) {
      assert back == data;
    }
  }

  lemma TopBitFlips(m: byte)
    requires m < 128
    ensures 255 ^ m >= 128
  {
  }

  /** With the source's table, ASCII text of any length survives as long as it holds no zero byte. */
  lemma AsciiRoundTrip(data: seq<byte>)
    requires forall c | c in data :: 0 < c < 128
    ensures IsMask(XOR_TABLE)
    ensures Deobfuscated(XOR_TABLE, Obfuscate(XOR_TABLE, data)) == Some(data)
  {
    XorTableIsMask();
    var table: Table := XOR_TABLE;
    AsciiIsRecoverable(table, data);
    RoundTripIff(table, data);
  }

  lemma AsciiIsRecoverable(table: Table, data: seq<byte>)
    requires forall c | c in data :: 0 < c < 128
    ensures Recoverable(table, data)
  {
    forall i | 0 <= i < |data|
      ensures data[i] != 0 && data[i] != 255 ^ Mask(table, i)
    {
      assert data[i] in data;
      TopBitFlips(Mask(table, i));
    }
  }

  /** Two secrets look the same exactly when they also come back the same. */
  lemma SameTextIff(table: Table, a: seq<byte>, b: seq<byte>)
    ensures Obfuscate(table, a) == Obfuscate(table, b) <==> ReadBackAll(table, a) == ReadBackAll(table, b)
  {
    ReadsBackAs(table, a);
    ReadsBackAs(table, b);
    if ReadBackAll(table, a) == ReadBackAll(table, b) {
      forall i | 0 <= i < |a|
        ensures TranslateByte(table, i, a[i]) == TranslateByte(table, i, b[i])
      {
        assert ReadBackAll(table, a)[i] == ReadBackAll(table, b)[i];
        LooksTheSame(table, i, a[i], b[i]);
      }
      assert Translate(table, a) == Translate(table, b);
    }
  }
}
