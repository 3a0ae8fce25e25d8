/**
 * Texts and bytes that the program is known to write or read, among them those of its own tests: they fix the formats,
 * which the general results leave open wherever a writer and its reader could be changed together.
 */
module KnownAnswers {
  import Base64
  import ConfigText
  import Ipv4Text
  import Numerals
  import Obfuscation
  import Settings
  import SlimCodec
  import Text
  import SexprReader
  import SexprRoundTrip
  import opened Sexprs
  import opened Wrappers
  import Utf8

  // ----- Frames of the SSL tunnel -----

  lemma DataFrame()
    ensures SlimCodec.Frame(SlimCodec.Data([7, 8, 9])) == [0, 0, 0, 3, 0, 0, 0, 2, 7, 8, 9]
  {
  }

  /** ASCII characters are encoded as themselves. */
  lemma AsciiBytes(a: char, b: char, c: char)
    requires a < 128 as char && b < 128 as char && c < 128 as char
    ensures Utf8.Encode([a, b, c]) == [a as int, b as int, c as int]
  {
    assert [c][1..] == "" && [b, c][1..] == [c] && [a, b, c][1..] == [b, c];
    assert Utf8.Encode([c]) == [c as int];
    assert Utf8.Encode([b, c]) == [b as int, c as int];
  }

  lemma ControlFrame()
    ensures SlimCodec.Frame(SlimCodec.Control(Value("a"))) == [0, 0, 0, 4, 0, 0, 0, 1, 0x28, 0x61, 0x29, 0]
  {
    assert ToString(Value("a")) == ['(', 'a', ')'];
    AsciiBytes('(', 'a', ')');
    assert SlimCodec.Payload(SlimCodec.Control(Value("a"))) == [0x28, 0x61, 0x29, 0];
  }

  // ----- Printed expressions -----

  /** A value stands in quotes exactly if some character is no ASCII letter, digit or underscore. */
  lemma PrintedValue(text: string)
    ensures var plain := forall c | c in text :: 'a' <= c <= 'z' || 'A' <= c <= 'Z' || '0' <= c <= '9' || c == '_';
            ToString(Value(text)) == if plain then "(" + text + ")" else "(\"" + text + "\")"
  {
    assert IsWord(text) <==> forall c | c in text :: IsWordChar(c);
  }

  lemma OneLine(f: Field, level: nat)
    requires f.value.Value?
    ensures FieldLines([f], level) == [Indent(level + 1) + ":" + f.key + " " + FormatValue(f.value.text)]
  {
    assert [f][1..] == [] && FieldLines([], level) == [];
  }

  /** A field stands on a line of its own, behind a tab and a colon. */
  lemma PrintedField(name: string, key: string, text: string)
    ensures ToString(Object(Some(name), [Field(key, Value(text))]))
         == "(" + name + "\n" + ("\t" + ":" + key + " " + ToString(Value(text))) + ")"
  {
    OneLine(Field(key, Value(text)), 0);
    assert Indent(1) == "\t";
  }

  /** An item stands on a line of its own, behind a tab, a colon and a blank. */
  lemma PrintedItem(text: string)
    ensures ToString(Array([Value(text)])) == "(\n" + ("\t" + ": " + ToString(Value(text))) + ")"
  {
    var items := [Value(text)];
    assert items[1..] == [] && ItemLines([], 0) == [];
    assert Indent(1) == "\t";
    assert ItemLines(items, 0) == ["\t" + ": " + FormatValue(text)];
  }

  /** Lines are joined by newlines, and those of an inner object have one tab more. */
  lemma PrintedNest(name: string, key: string, inner: string, k: string, text: string)
    ensures ToString(Object(Some(name), [Field(key, Object(Some(inner), [Field(k, Value(text))]))]))
         == "(" + name + "\n" + ("\t" + ":" + key + " "
              + ("(" + inner + "\n" + ("\t\t" + ":" + k + " " + ToString(Value(text))) + ")")) + ")"
  {
    var within := Object(Some(inner), [Field(k, Value(text))]);
    OneLine(Field(k, Value(text)), 1);
    assert Indent(2) == "\t\t" && Indent(1) == "\t";
    assert EncodeWithLevel(within, 1)
        == Some("(" + inner + "\n" + ("\t\t" + ":" + k + " " + FormatValue(text)) + ")");
    var fields := [Field(key, within)];
    assert fields[1..] == [] && FieldLines([], 0) == [];
    assert FieldLines(fields, 0) == ["\t" + ":" + key + " " + EncodeWithLevel(within, 1).value];
  }

  // ----- Read expressions -----

  lemma OneEscape(escape: string)
    requires escape != "" && SexprReader.CharLen(escape + "\"") == |escape|
    ensures SexprReader.TakeChars(escape + "\"") == (escape, "\"")
  {
    var inner := escape + "\"";
    assert inner[|escape|..] == "\"" && inner[..|escape|] == escape;
    assert SexprReader.TakeChars("\"") == ("", "\"");
    assert escape + "" == escape;
  }

  lemma NoEscape(inner: string)
    requires inner != "" && inner[0] == '\\' && SexprReader.CharLen(inner) == 0
    ensures SexprReader.ReadQuoted("\"" + inner) == None
  {
    assert ("\"" + inner)[1..] == inner;
  }

  lemma ReadsEscape(escape: string)
    requires escape != "" && SexprReader.CharLen(escape + "\"") == |escape|
    ensures SexprReader.ReadQuoted("\"" + (escape + "\"")) == Some((escape, ""))
  {
    OneEscape(escape);
    assert ("\"" + (escape + "\""))[1..] == escape + "\"";
  }

  lemma UnicodeLength(h: string)
    requires |h| <= 4
    ensures SexprReader.CharLen(("\\u" + h) + "\"")
         == if |h| == 4 && forall i | 0 <= i < |h| :: Numerals.DigitValue(h[i]) < 16 then 6 else 0
  {
    var inner := ("\\u" + h) + "\"";
    assert inner[0] == '\\' && inner[1] == 'u' && inner[2 + |h|] == '"';
    assert forall i | 0 <= i < |h| :: inner[2 + i] == h[i];
    assert forall i | 0 <= i < |h| :: SexprReader.IsHexDigit(h[i]) <==> Numerals.DigitValue(h[i]) < 16;
  }

  /** Behind a backslash and the letter u, exactly four hexadecimal digits of either case are an escape. */
  lemma QuotedUnicode(h: string)
    requires |h| <= 4
    ensures SexprReader.ReadQuoted("\"" + (("\\u" + h) + "\""))
         == if |h| == 4 && forall i | 0 <= i < |h| :: Numerals.DigitValue(h[i]) < 16 then Some(("\\u" + h, ""))
            else None
  {
    UnicodeLength(h);
    if SexprReader.CharLen(("\\u" + h) + "\"") == 6 {
      ReadsEscape("\\u" + h);
    } else {
      NoEscape(("\\u" + h) + "\"");
    }
  }

  /** Behind a backslash, exactly eight other characters are an escape. */
  lemma QuotedEscape(c: char)
    ensures SexprReader.ReadQuoted("\"" + (['\\', c] + "\""))
         == if c in "\"\\/bfnrt" then Some((['\\', c], "")) else None
  {
    assert c in "\"\\/bfnrt" <==> c in {'"', '\\', '/', 'b', 'f', 'n', 'r', 't'};
    if c in "\"\\/bfnrt" {
      ReadsEscape(['\\', c]);
    } else {
      NoEscape(['\\', c] + "\"");
    }
  }

  /** The five characters that may follow an expression. */
  lemma BlankBehind(c: char)
    ensures SexprReader.Parse("(a)" + [c])
         == if c in " \t\n\r\0" then Some(Value("a")) else None
  {
    var s := "(a)" + [c];
    assert ToString(Value("a")) == "(a)";
    SexprRoundTrip.ReadsPrinted(Value("a"), 0, [c]);
    assert s[0] == '(' && SexprReader.SkipBlank(s) == s;
    assert [c][1..] == "";
  }

  // ----- Other texts -----

  lemma Base64Text()
    ensures Base64.Encode([77, 97, 110]) == "TWFu" && Base64.Encode([77, 97]) == "TWE="
    ensures Base64.Encode([77]) == "TQ=="
  {
  }

  lemma Utf8Bytes()
    ensures Utf8.EncodeChar('A') == [0x41] && Utf8.EncodeChar('\U{E9}') == [0xC3, 0xA9]
    ensures Utf8.EncodeChar('\U{20AC}') == [0xE2, 0x82, 0xAC]
    ensures Utf8.EncodeChar('\U{1F600}') == [0xF0, 0x9F, 0x98, 0x80]
  {
  }

  lemma HexText()
    ensures Obfuscation.EncodeHex([0x36, 0xA9]) == "36a9"
  {
  }

  lemma FirstMasks(i: nat)
    requires i < 8
    ensures Obfuscation.IsMask(Obfuscation.XOR_TABLE)
    ensures Obfuscation.Mask(Obfuscation.XOR_TABLE, i) == [45, 79, 68, 73, 70, 73, 69, 68][i]
  {
    Obfuscation.XorTableIsMask();
    assert Obfuscation.ROW_1[i] == [45, 79, 68, 73, 70, 73, 69, 68][i];
    assert |Obfuscation.XOR_TABLE| == 77;
    assert i % 77 == i;
  }

  lemma Hidden(i: nat, c: Obfuscation.byte, mask: Obfuscation.byte, h: Obfuscation.byte)
    requires i < 8 && mask == [45, 79, 68, 73, 70, 73, 69, 68][i]
    requires h == (c % 255) ^ mask && h != 0
    ensures Obfuscation.IsMask(Obfuscation.XOR_TABLE)
    ensures Obfuscation.TranslateByte(Obfuscation.XOR_TABLE, i, c) == h
  {
    FirstMasks(i);
  }

  const SECRET: seq<Obfuscation.byte> := [116, 101, 115, 116, 117, 115, 101, 114]
  const HIDDEN: seq<Obfuscation.byte> := [0x36, 0x20, 0x3A, 0x33, 0x3D, 0x37, 0x2A, 0x59]

  lemma HiddenByte(i: nat)
    requires i < 8
    ensures Obfuscation.IsMask(Obfuscation.XOR_TABLE)
    ensures Obfuscation.TranslateByte(Obfuscation.XOR_TABLE, i, SECRET[i]) == HIDDEN[7 - i]
  {
    if i == 0 {
      Hidden(0, 116, 45, 0x59);
    } else if i == 1 {
      Hidden(1, 101, 79, 0x2A);
    } else if i == 2 {
      Hidden(2, 115, 68, 0x37);
    } else if i == 3 {
      Hidden(3, 116, 73, 0x3D);
    } else if i == 4 {
      Hidden(4, 117, 70, 0x33);
    } else if i == 5 {
      Hidden(5, 115, 73, 0x3A);
    } else if i == 6 {
      Hidden(6, 101, 69, 0x20);
    } else {
      Hidden(7, 114, 68, 0x36);
    }
  }

  lemma TranslatesTo(table: Obfuscation.Table, data: seq<Obfuscation.byte>, hidden: seq<Obfuscation.byte>)
    requires |data| == |hidden|
    requires forall i | 0 <= i < |data| :: Obfuscation.TranslateByte(table, i, data[i]) == hidden[|hidden| - 1 - i]
    ensures Obfuscation.Translate(table, data) == hidden
  {
  }

  /** The secret of the program's own test, byte by byte, before it is written in hexadecimal. */
  lemma HiddenText()
    ensures Obfuscation.IsMask(Obfuscation.XOR_TABLE)
    ensures Obfuscation.Translate(Obfuscation.XOR_TABLE, SECRET) == HIDDEN
  {
    Obfuscation.XorTableIsMask();
    forall i | 0 <= i < 8
      ensures Obfuscation.TranslateByte(Obfuscation.XOR_TABLE, i, SECRET[i]) == HIDDEN[7 - i]
    {
      HiddenByte(i);
    }
    assert |SECRET| == |HIDDEN| == 8;
    TranslatesTo(Obfuscation.XOR_TABLE, SECRET, HIDDEN);
  }

  lemma DecimalText()
    ensures Numerals.Decimal(0) == "0" && Numerals.Decimal(7) == "7" && Numerals.Decimal(32) == "32"
  {
  }

  lemma JoinFour(a: string, b: string, c: string, d: string, separator: char)
    ensures Text.JoinWith([a, b, c, d], separator) == a + [separator] + b + [separator] + c + [separator] + d
  {
    assert [a, b, c, d][1..] == [b, c, d] && [b, c, d][1..] == [c, d] && [c, d][1..] == [d];
    assert Text.JoinWith([c, d], separator) == c + [separator] + d;
    assert Text.JoinWith([b, c, d], separator) == b + [separator] + (c + [separator] + d);
  }

  /** A network is written in dotted decimals, with a slash and its prefix length unless that is 32. */
  lemma NetworkText(ip: Ipv4Text.Ipv4, prefix: nat)
    requires prefix <= 32
    ensures var address := Numerals.Decimal(ip.a) + ['.'] + Numerals.Decimal(ip.b) + ['.'] + Numerals.Decimal(ip.c)
                           + ['.'] + Numerals.Decimal(ip.d);
            && Ipv4Text.PrintAddress(ip) == address
            && Ipv4Text.PrintNet(Ipv4Text.Ipv4Net(ip, prefix))
            == if prefix == 32 then address else address + ['/'] + Numerals.Decimal(prefix)
  {
    JoinFour(Numerals.Decimal(ip.a), Numerals.Decimal(ip.b), Numerals.Decimal(ip.c), Numerals.Decimal(ip.d), '.');
  }

  /** What is written for settings at their defaults. */
  lemma DefaultTexts()
    ensures Settings.Print(Settings.FlagKind, Settings.Flag(false)) == Some("false")
    ensures Settings.Print(Settings.LeaseKind, Settings.Lease(None)) == Some("")
    ensures Settings.Print(Settings.ChoiceKind(Settings.TunnelType), Settings.Choice(0)) == Some("ipsec")
    ensures Settings.Print(Settings.ChoiceKind(Settings.CertType), Settings.Choice(0)) == Some("none")
    ensures Settings.Print(Settings.ChoiceKind(Settings.ColorTheme), Settings.Choice(0)) == Some("auto")
    ensures Settings.Print(Settings.ChoiceKind(Settings.TransportType), Settings.Choice(0)) == Some("auto")
    ensures Settings.Print(Settings.ChoiceKind(Settings.TlsVersion), Settings.Choice(0)) == Some("1.2")
  {
  }

  lemma SameLower(s: string, lower: string)
    requires |s| == |lower| && forall i | 0 <= i < |s| :: Settings.LowerChar(s[i]) == lower[i]
    ensures Settings.Lower(s) == lower
  {
  }

  /** Names that are read besides those that are written, and one that is not: the transport's case matters. */
  lemma OtherNames()
    ensures Settings.ReadChoice(Settings.TlsVersion, "tls1.3") == 1
    ensures Settings.ReadChoice(Settings.TlsVersion, "TLS13") == 1
    ensures Settings.ReadChoice(Settings.TlsVersion, "any") == 2
    ensures Settings.ReadChoice(Settings.TunnelType, "SSL") == 1
    ensures Settings.ReadChoice(Settings.TransportType, "UDP") == 0
  {
    SameLower("tls1.3", "tls1.3");
    SameLower("TLS13", "tls13");
    SameLower("any", "any");
    SameLower("SSL", "ssl");
    assert "UDP"[0] != "udp"[0];
  }

  /** The names written for the choices that are not the default. */
  lemma ChoiceNames()
    ensures Settings.Names(Settings.TunnelType)[1..] == ["ssl"]
    ensures Settings.Names(Settings.CertType)[1..] == ["pkcs12", "pkcs8", "pkcs11", "system"]
    ensures Settings.Names(Settings.ColorTheme)[1..] == ["dark", "light"]
    ensures Settings.Names(Settings.TransportType)[1..] == ["udp", "tcpt", "kernel"]
    ensures Settings.Names(Settings.TlsVersion)[1..] == ["1.3", "default"]
  {
  }
}
