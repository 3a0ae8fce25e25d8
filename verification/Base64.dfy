/** Base64 (section 4 of RFC 4648) with padding; the reader accepts only what the writer writes. */
module Base64 {
  import opened Numerals
  import opened Utf8
  import opened Wrappers

  /** Six bits, or 64 for the padding character. */
  type Symbol = n: nat | n <= 64

  const PAD: Symbol := 64

  function Character(n: Symbol): char {
    if n < 26 then ('A' as nat + n) as char
    else if n < 52 then ('a' as nat + (n - 26)) as char
    else if n < 62 then ('0' as nat + (n - 52)) as char
    else if n == 62 then '+' else if n == 63 then '/' else '='
  }

  function Value(c: char): Option<Symbol> {
    if 'A' <= c <= 'Z' then Some(c as nat - 'A' as nat)
    else if 'a' <= c <= 'z' then Some(c as nat - 'a' as nat + 26)
    else if '0' <= c <= '9' then Some(c as nat - '0' as nat + 52)
    else if c == '+' then Some(62) else if c == '/' then Some(63) else if c == '=' then Some(PAD) else None
  }

  function V0(b0: byte): (v: Symbol) ensures v < PAD { b0 / 4 }
  function V1(b0: byte, b1: byte): (v: Symbol) ensures v < PAD { b0 as int % 4 * 16 + b1 / 16 }
  function V2(b1: byte, b2: byte): (v: Symbol) ensures v < PAD { b1 as int % 16 * 4 + b2 / 64 }
  function V3(b2: byte): (v: Symbol) ensures v < PAD { b2 % 64 }

  function B0(v0: Symbol, v1: Symbol): byte requires v0 < PAD && v1 < PAD { v0 as int * 4 + v1 as int / 16 }
  function B1(v1: Symbol, v2: Symbol): byte requires v1 < PAD && v2 < PAD { v1 as int % 16 * 16 + v2 as int / 4 }
  function B2(v2: Symbol, v3: Symbol): byte requires v2 < PAD && v3 < PAD { v2 as int % 4 * 64 + v3 as int }

  function Group(b: seq<byte>): seq<Symbol> {
    if b == [] then []
    else if |b| == 1 then [V0(b[0]), V1(b[0], 0), PAD, PAD]
    else if |b| == 2 then [V0(b[0]), V1(b[0], b[1]), V2(b[1], 0), PAD]
    else [V0(b[0]), V1(b[0], b[1]), V2(b[1], b[2]), V3(b[2])] + Group(b[3..])
  }

  function Ungroup(v: seq<Symbol>): Option<seq<byte>> {
    if v == [] then Some([])
    else if |v| < 4 || v[0] == PAD || v[1] == PAD then None
    else if |v| == 4 && v[2] == PAD && v[3] == PAD then
      if v[1] % 16 == 0 then Some([B0(v[0], v[1])]) else None
    else if v[2] == PAD then None
    else if |v| == 4 && v[3] == PAD then
      if v[2] % 4 == 0 then Some([B0(v[0], v[1]), B1(v[1], v[2])]) else None
    else if v[3] == PAD then None
    else match Ungroup(v[4..])
         case None => None
         case Some(rest) => Some([B0(v[0], v[1]), B1(v[1], v[2]), B2(v[2], v[3])] + rest)
  }

  function Spell(v: seq<Symbol>): (s: string)
    ensures |s| == |v| && forall i | 0 <= i < |v| :: s[i] == Character(v[i])
  {
    seq(|v|, i requires 0 <= i < |v| => Character(v[i]))
  }

  function Symbols(s: string): (r: Option<seq<Symbol>>)
    ensures r.Some? <==> forall i | 0 <= i < |s| :: Value(s[i]).Some?
    ensures r.Some? ==> |r.value| == |s| && forall i | 0 <= i < |s| :: r.value[i] == Value(s[i]).value
  {
    if forall i | 0 <= i < |s| :: Value(s[i]).Some?
    then Some(seq(|s|, i requires 0 <= i < |s| => Value(s[i]).value))
    else None
  }

  function Encode(b: seq<byte>): string {
    Spell(Group(b))
  }

  function Decode(s: string): Option<seq<byte>> {
    match Symbols(s)
    case None => None
    case Some(v) => Ungroup(v)
  }

  lemma CharacterReadsBack(n: Symbol)
    ensures Value(Character(n)) == Some(n)
  {
  }

  lemma ValueReadsBack(c: char)
    requires Value(c).Some?
    ensures Character(Value(c).value) == c
  {
  }

  lemma BytesRegroup(b0: byte, b1: byte, b2: byte)
    ensures B0(V0(b0), V1(b0, b1)) == b0 && B1(V1(b0, b1), V2(b1, b2)) == b1 && B2(V2(b1, b2), V3(b2)) == b2
    ensures V1(b0, 0) % 16 == 0 && V2(b1, 0) % 4 == 0
  {
  }

  lemma SymbolsRegroup(v0: Symbol, v1: Symbol, v2: Symbol, v3: Symbol)
    requires v0 < PAD && v1 < PAD && v2 < PAD && v3 < PAD
    ensures var b0, b1, b2 := B0(v0, v1), B1(v1, v2), B2(v2, v3);
            V0(b0) == v0 && V1(b0, b1) == v1 && V2(b1, b2) == v2 && V3(b2) == v3
    ensures v1 % 16 == 0 ==> V1(B0(v0, v1), 0) == v1
    ensures v2 % 4 == 0 ==> V2(B1(v1, v2), 0) == v2
  {
  }

  lemma GroupThree(b0: byte, b1: byte, b2: byte, rest: seq<byte>)
    ensures Group([b0, b1, b2] + rest) == [V0(b0), V1(b0, b1), V2(b1, b2), V3(b2)] + Group(rest)
  {
    assert ([b0, b1, b2] + rest)[3..] == rest;
  }

  lemma UngroupFour(v0: Symbol, v1: Symbol, v2: Symbol, v3: Symbol, rest: seq<Symbol>)
    requires v0 < PAD && v1 < PAD && v2 < PAD && v3 < PAD
    ensures Ungroup([v0, v1, v2, v3] + rest)
            == match Ungroup(rest) case None => None case Some(b) => Some([B0(v0, v1), B1(v1, v2), B2(v2, v3)] + b)
  {
    assert ([v0, v1, v2, v3] + rest)[4..] == rest;
  }

  lemma ThreeReadBack(b0: byte, b1: byte, b2: byte, rest: seq<byte>)
    requires Ungroup(Group(rest)) == Some(rest)
    ensures Ungroup(Group([b0, b1, b2] + rest)) == Some([b0, b1, b2] + rest)
  {
    GroupThree(b0, b1, b2, rest);
    UngroupFour(V0(b0), V1(b0, b1), V2(b1, b2), V3(b2), Group(rest));
    BytesRegroup(b0, b1, b2);
  }

  lemma TwoReadBack(b0: byte, b1: byte)
    ensures Ungroup(Group([b0, b1])) == Some([b0, b1])
  {
    BytesRegroup(b0, b1, 0);
  }

  lemma OneReadsBack(b0: byte)
    ensures Ungroup(Group([b0])) == Some([b0])
  {
    var v0, v1 := V0(b0), V1(b0, 0);
    GroupOne(b0, v0, v1);
    OnePadded(v0, v1);
    OneRegroups(b0, v0, v1);
  }

  lemma GroupOne(b0: byte, v0: Symbol, v1: Symbol)
    requires v0 == V0(b0) && v1 == V1(b0, 0)
    ensures Group([b0]) == [v0, v1, PAD, PAD]
  {
  }

  lemma OneRegroups(b0: byte, v0: Symbol, v1: Symbol)
    requires v0 == V0(b0) && v1 == V1(b0, 0)
    ensures B0(v0, v1) == b0 && v1 % 16 == 0
  {
  }

  lemma OnePadded(v0: Symbol, v1: Symbol)
    requires v0 < PAD && v1 < PAD && v1 % 16 == 0
    ensures Ungroup([v0, v1, PAD, PAD]) == Some([B0(v0, v1)])
  {
  }

  lemma {:induction false} GroupRoundTrip(b: seq<byte>)
    ensures Ungroup(Group(b)) == Some(b)
  {
    if |b| >= 3 {
      assert b == [b[0], b[1], b[2]] + b[3..];
      GroupRoundTrip(b[3..]);
      ThreeReadBack(b[0], b[1], b[2], b[3..]);
    } else if |b| == 2 {
      assert b == [b[0], b[1]];
      TwoReadBack(b[0], b[1]);
    } else if |b| == 1 {
      assert b == [b[0]];
      OneReadsBack(b[0]);
    }
  }

  lemma FourReadBack(v0: Symbol, v1: Symbol, v2: Symbol, v3: Symbol, rest: seq<Symbol>)
    requires v0 < PAD && v1 < PAD && v2 < PAD && v3 < PAD
    requires Ungroup(rest).Some? && Group(Ungroup(rest).value) == rest
    ensures Group(Ungroup([v0, v1, v2, v3] + rest).value) == [v0, v1, v2, v3] + rest
  {
    UngroupFour(v0, v1, v2, v3, rest);
    GroupThree(B0(v0, v1), B1(v1, v2), B2(v2, v3), Ungroup(rest).value);
    SymbolsRegroup(v0, v1, v2, v3);
  }

  lemma PaddedReadBack(v0: Symbol, v1: Symbol, v2: Symbol)
    ensures Ungroup([v0, v1, v2, PAD]).Some? ==> Group(Ungroup([v0, v1, v2, PAD]).value) == [v0, v1, v2, PAD]
  {
    if Ungroup([v0, v1, v2, PAD]).Some? {
      SymbolsRegroup(v0, v1, if v2 == PAD then 0 else v2, 0);
    }
  }

  lemma {:induction false} UngroupRoundTrip(v: seq<Symbol>)
    requires Ungroup(v).Some?
    ensures Group(Ungroup(v).value) == v
  {
    if |v| == 4 && v[3] == PAD {
      assert v == [v[0], v[1], v[2], PAD];
      PaddedReadBack(v[0], v[1], v[2]);
    } else if v != [] {
      assert v == [v[0], v[1], v[2], v[3]] + v[4..];
      UngroupFour(v[0], v[1], v[2], v[3], v[4..]);
      UngroupRoundTrip(v[4..]);
      FourReadBack(v[0], v[1], v[2], v[3], v[4..]);
    }
  }

  lemma RoundTrip(b: seq<byte>)
    ensures Decode(Encode(b)) == Some(b)
  {
    var v := Group(b);
    forall i | 0 <= i < |v|
      ensures Value(Spell(v)[i]) == Some(v[i])
    {
      CharacterReadsBack(v[i]);
    }
    assert Symbols(Spell(v)).value == v;
    GroupRoundTrip(b);
  }

  /** Whatever can be read is exactly what would be written: no two texts stand for the same bytes. */
  lemma Canonical(s: string)
    requires Decode(s).Some?
    ensures Encode(Decode(s).value) == s
  {
    var v := Symbols(s).value;
    UngroupRoundTrip(v);
    forall i | 0 <= i < |s|
      ensures Spell(v)[i] == s[i]
    {
      ValueReadsBack(s[i]);
    }
    assert Spell(v) == s;
  }

  /** The alphabet, with the padding character. */
  predicate IsAlphabet(c: char) {
    Value(c).Some?
  }

  lemma EncodeAlphabet(b: seq<byte>)
    ensures forall c | c in Encode(b) :: IsAlphabet(c)
    ensures Encode(b) == "" <==> b == []
  {
    forall i | 0 <= i < |Group(b)|
      ensures IsAlphabet(Encode(b)[i])
    {
      CharacterReadsBack(Group(b)[i]);
    }
  }
}
