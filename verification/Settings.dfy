/** The values of a profile, written and read one by one (crates/snxcore/src/model/params.rs). */
module Settings {
  import Base64
  import Utf8
  import opened ConfigText
  import opened Ipv4Text
  import opened Numerals
  import opened Text
  import opened Wrappers

  const U16_LIMIT: nat := 0x1_0000
  const U64_LIMIT: nat := 0x1_0000_0000_0000_0000
  const NANOS: nat := 1_000_000_000

  datatype Duration = Duration(secs: nat, nanos: nat)

  const NIL_DIGITS: seq<nat> :=
    [0, 0, 0, 0, 0, 0, 0, 0, 0, 0, 0, 0, 0, 0, 0, 0, 0, 0, 0, 0, 0, 0, 0, 0, 0, 0, 0, 0, 0, 0, 0, 0]

  predicate IsHex(digits: seq<nat>) {
    forall i | 0 <= i < |digits| :: digits[i] < 16
  }

  /** A UUID as its thirty-two hexadecimal digits. */
  type Uuid = s: seq<nat> | |s| == 32 && IsHex(s) witness NIL_DIGITS

  const NIL_UUID: Uuid := NIL_DIGITS
  const DEFAULT_UUID: Uuid :=
    [3, 8, 7, 0, 3, 8, 6, 2, 8, 0, 5, 12, 4, 4, 1, 12, 9, 2, 2, 14, 14, 14, 4, 5, 14, 10, 15, 2, 11, 11, 5, 14]

  datatype Value =
    | Plain(text: string)
    | Maybe(option: Option<string>)
    | Flag(on: bool)
    | Count(n: nat)
    | Span(time: Duration)
    | Lease(limit: Option<Duration>)
    | Words(items: seq<string>)
    | Hosts(addresses: seq<Ipv4>)
    | Nets(nets: seq<Ipv4Net>)
    | Choice(index: nat)
    | Identity(id: Uuid)

  /** The settings that are one of a few names. */
  datatype Options = TunnelType | CertType | ColorTheme | TransportType | TlsVersion

  /** How an option is written and read, and what it is when the file does not name it. */
  datatype Kind =
    | PlainKind(default: string)
    | SecretKind
    | MaybeKind
    | FlagKind
    | CountKind(limit: nat, start: nat)
    | SpanKind(seconds: nat)
    | LeaseKind
    | WordsKind
    | HostsKind
    | NetsKind
    | ChoiceKind(options: Options)
    | IdentityKind

  datatype Row = Row(key: string, kind: Kind)

  // ----- Reading one value -----

  function ReadFlag(v: string): bool {
    v == "true"
  }

  function LowerChar(c: char): (r: char)
    ensures 'A' <= c <= 'Z' ==> 'a' <= r <= 'z' && r as int - 'a' as int == c as int - 'A' as int
    ensures !('A' <= c <= 'Z') ==> r == c
  {
    if 'A' <= c <= 'Z' then (c as nat - 'A' as nat + 'a' as nat) as char else c
  }

  function Lower(s: string): (r: string)
    ensures |r| == |s| && forall i | 0 <= i < |s| :: r[i] == LowerChar(s[i])
  {
    seq(|s|, i requires 0 <= i < |s| => LowerChar(s[i]))
  }

  /** The names under which the choices are written, in the order of their numbers. */
  function Names(options: Options): (r: seq<string>)
    ensures r != []
  {
    match options
    case TunnelType => ["ipsec", "ssl"]
    case CertType => ["none", "pkcs12", "pkcs8", "pkcs11", "system"]
    case ColorTheme => ["auto", "dark", "light"]
    case TransportType => ["auto", "udp", "tcpt", "kernel"]
    case TlsVersion => ["1.2", "1.3", "default"]
  }

  /** The choice that goes by a name, in upper or lower case except for the transport; anything else is the default. */
  function ReadChoice(options: Options, v: string): (r: nat)
    ensures r < |Names(options)|
  {
    var s := Lower(v);
    match options
    case TunnelType => if s == "ssl" then 1 else 0
    case CertType =>
      if s == "pkcs12" then 1 else if s == "pkcs8" then 2 else if s == "pkcs11" then 3
      else if s == "system" then 4 else 0
    case ColorTheme => if s == "dark" then 1 else if s == "light" then 2 else 0
    case TransportType => if v == "udp" then 1 else if v == "tcpt" then 2 else if v == "kernel" then 3 else 0
    case TlsVersion =>
      if s == "1.3" || s == "tls1.3" || s == "tls13" then 1 else if s == "default" || s == "any" then 2 else 0
  }

  lemma LowerStays(s: string)
    requires forall i | 0 <= i < |s| :: LowerChar(s[i]) == s[i]
    ensures Lower(s) == s
  {
  }

  lemma LettersAreClean(s: string)
    requires s != ""
    requires forall i | 0 <= i < |s| :: 'a' <= s[i] <= 'z' || '0' <= s[i] <= '9' || s[i] == '.' || s[i] == '_'
    ensures Clean(s) && Lower(s) == s
  {
    PlainIsClean(s);
    LowerStays(s);
  }

  /** Every choice is found again under the name it is written with. */
  lemma ChoiceReadsBack(options: Options, k: nat)
    requires k < |Names(options)|
    ensures Clean(Names(options)[k]) && ReadChoice(options, Names(options)[k]) == k
  {
    var name := Names(options)[k];
    LettersAreClean(name);
  }

  function TrimAll(pieces: seq<string>): (r: seq<string>)
    ensures |r| == |pieces| && forall i | 0 <= i < |r| :: r[i] == Trim(pieces[i])
  {
    seq(|pieces|, i requires 0 <= i < |pieces| => Trim(pieces[i]))
  }

  /** What is no address is skipped. */
  function ReadHosts(pieces: seq<string>): seq<Ipv4> {
    if pieces == [] then []
    else (match ParseAddress(Trim(pieces[0])) case Some(ip) => [ip] case None => []) + ReadHosts(pieces[1..])
  }

  function ReadNets(pieces: seq<string>): seq<Ipv4Net> {
    if pieces == [] then []
    else (match ParseAddressOrNet(pieces[0]) case Some(net) => [net] case None => []) + ReadNets(pieces[1..])
  }

  function HexChar(d: nat): (c: char)
    requires d < 16
    ensures DigitValue(c) == d && ('0' <= c <= '9' || 'a' <= c <= 'f')
  {
    if d < 10 then ('0' as nat + d) as char else ('a' as nat + (d - 10)) as char
  }

  function PrintHex(digits: seq<nat>): (s: string)
    requires IsHex(digits)
    ensures |s| == |digits| && forall i | 0 <= i < |s| :: s[i] == HexChar(digits[i])
  {
    seq(|digits|, i requires 0 <= i < |digits| => HexChar(digits[i]))
  }

  function ReadHex(s: string): (r: seq<nat>)
    requires forall i | 0 <= i < |s| :: DigitValue(s[i]) < 16
    ensures |r| == |s| && forall i | 0 <= i < |s| :: r[i] == DigitValue(s[i]) < 16
  {
    seq(|s|, i requires 0 <= i < |s| => DigitValue(s[i]))
  }

  function PrintUuid(id: Uuid): string {
    JoinWith([PrintHex(id[..8]), PrintHex(id[8..12]), PrintHex(id[12..16]), PrintHex(id[16..20]),
        PrintHex(id[20..])], '-')
  }

  /** The digits alone, or in five groups, which may stand in braces or behind a URN prefix. */
  function ReadUuid(s: string): Option<Uuid> {
    if |s| == 32 then ReadDigits(s)
    else if |s| == 36 then ReadGroups(s)
    else if |s| == 38 && s[0] == '{' && s[37] == '}' then ReadGroups(s[1..37])
    else if |s| == 45 && s[..9] == "urn:uuid:" then ReadGroups(s[9..])
    else None
  }

  function ReadDigits(s: string): Option<Uuid>
    requires |s| == 32
  {
    if forall i | 0 <= i < |s| :: DigitValue(s[i]) < 16 then Some(ReadHex(s)) else None
  }

  function ReadGroups(s: string): Option<Uuid> {
    var g := Split(s, '-');
    if |g| == 5 && |g[0]| == 8 && |g[1]| == 4 && |g[2]| == 4 && |g[3]| == 4 && |g[4]| == 12
    then ReadDigits(g[0] + g[1] + g[2] + g[3] + g[4])
    else None
  }

  function Default(kind: Kind): Value {
    match kind
    case PlainKind(default) => Plain(default)
    case SecretKind => Plain("")
    case MaybeKind => Maybe(None)
    case FlagKind => Flag(false)
    case CountKind(_, start) => Count(start)
    case SpanKind(seconds) => Span(Duration(seconds, 0))
    case LeaseKind => Lease(None)
    case WordsKind => Words([])
    case HostsKind => Hosts([])
    case NetsKind => Nets([])
    case ChoiceKind(_) => Choice(0)
    case IdentityKind => Identity(DEFAULT_UUID)
  }

  function Read(kind: Kind, v: string): Value {
    match kind
    case PlainKind(_) => Plain(v)
    case SecretKind =>
      (match Base64.Decode(v)
       case Some(bytes) => Plain(Utf8.DecodeLossy(bytes))
       case None => Plain(v))
    case MaybeKind => Maybe(Some(v))
    case FlagKind => Flag(ReadFlag(v))
    case CountKind(limit, start) =>
      (match ParseUnsigned(v, 10, limit)
       case Some(n) => Count(n)
       case None => Count(start))
    case SpanKind(seconds) =>
      (match ParseUnsigned(v, 10, U64_LIMIT)
       case Some(n) => Span(Duration(n, 0))
       case None => Span(Duration(seconds, 0)))
    case LeaseKind =>
      (match ParseUnsigned(v, 10, U64_LIMIT)
       case Some(n) => Lease(Some(Duration(n, 0)))
       case None => Lease(None))
    case WordsKind => Words(TrimAll(Split(v, ',')))
    case HostsKind => Hosts(ReadHosts(Split(v, ',')))
    case NetsKind => Nets(ReadNets(Split(v, ',')))
    case ChoiceKind(options) => Choice(ReadChoice(options, v))
    case IdentityKind =>
      (match ReadUuid(v)
       case Some(id) => Identity(id)
       case None => Identity(NIL_UUID))
  }

  // ----- Writing one value -----

  /** The value has the option's type. */
  predicate Typed(kind: Kind, v: Value) {
    match kind
    case PlainKind(_) => v.Plain?
    case SecretKind => v.Plain?
    case MaybeKind => v.Maybe?
    case FlagKind => v.Flag?
    case CountKind(limit, _) => v.Count? && v.n < limit
    case SpanKind(_) => v.Span? && v.time.secs < U64_LIMIT && v.time.nanos < NANOS
    case LeaseKind => v.Lease? && (v.limit.Some? ==> v.limit.value.secs < U64_LIMIT && v.limit.value.nanos < NANOS)
    case WordsKind => v.Words?
    case HostsKind => v.Hosts?
    case NetsKind => v.Nets?
    case ChoiceKind(options) => v.Choice? && v.index < |Names(options)|
    case IdentityKind => v.Identity?
  }

  /** The rows' own sanity: defaults can be kept. */
  predicate GoodKind(kind: Kind) {
    match kind
    case PlainKind(default) => default == "" || Clean(default)
    case CountKind(limit, start) => start < limit
    case SpanKind(seconds) => seconds < U64_LIMIT
    case _ => true
  }

  function PrintAddresses(addresses: seq<Ipv4>): (r: seq<string>)
    ensures |r| == |addresses| && forall i | 0 <= i < |r| :: r[i] == PrintAddress(addresses[i])
  {
    seq(|addresses|, i requires 0 <= i < |addresses| => PrintAddress(addresses[i]))
  }

  function PrintNets(nets: seq<Ipv4Net>): (r: seq<string>)
    ensures |r| == |nets| && forall i | 0 <= i < |r| :: r[i] == PrintNet(nets[i])
  {
    seq(|nets|, i requires 0 <= i < |nets| => PrintNet(nets[i]))
  }

  /** The text behind the equals sign; an absent optional value has no line at all. */
  function Print(kind: Kind, v: Value): Option<string>
    requires Typed(kind, v)
  {
    match kind
    case PlainKind(_) => Some(v.text)
    case SecretKind => Some(Base64.Encode(Utf8.Encode(v.text)))
    case MaybeKind => v.option
    case FlagKind => Some(if v.on then "true" else "false")
    case CountKind(_, _) => Some(Decimal(v.n))
    case SpanKind(_) => Some(Decimal(v.time.secs))
    case LeaseKind => Some(if v.limit.Some? then Decimal(v.limit.value.secs) else "")
    case WordsKind => Some(JoinWith(v.items, ','))
    case HostsKind => Some(JoinWith(PrintAddresses(v.addresses), ','))
    case NetsKind => Some(JoinWith(PrintNets(v.nets), ','))
    case ChoiceKind(options) => Some(Names(options)[v.index])
    case IdentityKind => Some(PrintUuid(v.id))
  }

  /**
   * What a file can keep: clean text, or no text where that is the default; lists of trimmed items without commas;
   * whole seconds. A password can be any text.
   */
  predicate Keepable(kind: Kind, v: Value)
    requires Typed(kind, v)
  {
    match kind
    case PlainKind(default) => (v.text == "" && default == "") || Clean(v.text)
    case MaybeKind => v.option.Some? ==> Clean(v.option.value)
    case SpanKind(_) => v.time.nanos == 0
    case LeaseKind => v.limit.Some? ==> v.limit.value.nanos == 0
    case WordsKind => KeepableWords(v.items)
    case _ => true
  }

  predicate KeepableWords(items: seq<string>) {
    items == []
    || ((forall w | w in items :: ',' !in w && Trimmed(w, WHITESPACE)) && Clean(JoinWith(items, ',')))
  }

  // ----- One value, written and read -----

  /** A visible ASCII character other than the double quote; it stays in place wherever it stands. */
  predicate IsPlain(c: char) {
    ' ' < c <= '~' && c != '"'
  }

  predicate AllPlain(s: string) {
    forall c | c in s :: IsPlain(c)
  }

  lemma PlainIsInner(c: char)
    requires IsPlain(c)
    ensures c !in EDGES && c !in WHITESPACE
  {
  }

  lemma PlainIsClean(s: string)
    requires AllPlain(s) && s != ""
    ensures Clean(s) && Trim(s) == s
  {
    assert s[0] in s && s[|s| - 1] in s;
    PlainIsInner(s[0]);
    PlainIsInner(s[|s| - 1]);
    assert forall c | c in s :: c != '\n';
    TrimmedStays(s, WHITESPACE);
  }

  lemma DecimalIsClean(n: nat)
    ensures Clean(Decimal(n))
  {
    var s := Decimal(n);
    forall c | c in s
      ensures IsPlain(c)
    {
      assert '0' <= c <= '9';
    }
    PlainIsClean(s);
  }

  lemma SecretReadsBack(text: string)
    ensures Base64.Decode(Base64.Encode(Utf8.Encode(text))) == Some(Utf8.Encode(text))
    ensures Utf8.DecodeLossy(Utf8.Encode(text)) == text
  {
    Base64.RoundTrip(Utf8.Encode(text));
    Utf8.RoundTrip(text, []);
    assert Utf8.Encode(text) + [] == Utf8.Encode(text) && text + Utf8.DecodeLossy([]) == text;
  }

  lemma SecretIsClean(text: string)
    ensures var code := Base64.Encode(Utf8.Encode(text)); if text == "" then code == "" else Clean(code)
  {
    var bytes := Utf8.Encode(text);
    CodeIsClean(bytes);
    assert bytes == [] <==> text == "";
  }

  lemma CodeIsClean(bytes: seq<Utf8.byte>)
    ensures if bytes == [] then Base64.Encode(bytes) == "" else Clean(Base64.Encode(bytes))
  {
    var code := Base64.Encode(bytes);
    Base64.EncodeAlphabet(bytes);
    forall c | c in code
      ensures IsPlain(c)
    {
      assert Base64.IsAlphabet(c);
    }
    if code != "" {
      PlainIsClean(code);
    }
  }

  lemma AddressTrims(ip: Ipv4)
    ensures Trim(PrintAddress(ip)) == PrintAddress(ip)
  {
    AddressChars(ip);
    PlainIsClean(PrintAddress(ip));
  }

  lemma HostsStep(piece: string, ip: Ipv4, rest: seq<string>)
    requires ParseAddress(Trim(piece)) == Some(ip)
    ensures ReadHosts([piece] + rest) == [ip] + ReadHosts(rest)
  {
    assert ([piece] + rest)[1..] == rest;
  }

  lemma {:induction false} HostsReadBack(addresses: seq<Ipv4>)
    ensures ReadHosts(PrintAddresses(addresses)) == addresses
  {
    if addresses != [] {
      AddressRoundTrip(addresses[0]);
      AddressTrims(addresses[0]);
      HostsReadBack(addresses[1..]);
      assert PrintAddresses(addresses) == [PrintAddress(addresses[0])] + PrintAddresses(addresses[1..]);
      HostsStep(PrintAddress(addresses[0]), addresses[0], PrintAddresses(addresses[1..]));
    }
  }

  lemma {:induction false} NetsReadBack(nets: seq<Ipv4Net>)
    ensures ReadNets(PrintNets(nets)) == nets
  {
    if nets != [] {
      NetRoundTrip(nets[0]);
      NetsReadBack(nets[1..]);
      assert PrintNets(nets)[1..] == PrintNets(nets[1..]);
    }
  }

  /** A list of plain texts makes a clean line that splits into the same list. */
  lemma ListReadsBack(parts: seq<string>)
    requires parts != [] && forall p | p in parts :: p != "" && AllPlain(p) && ',' !in p
    ensures Split(JoinWith(parts, ','), ',') == parts && Clean(JoinWith(parts, ','))
  {
    SplitJoin(parts, ',');
    JoinedChars(parts, ',');
    var joined := JoinWith(parts, ',');
    assert parts[0] in parts;
    assert |joined| >= |parts[0]|;
    forall c | c in joined
      ensures IsPlain(c)
    {
      if c != ',' {
        var p :| p in parts && c in p;
        assert AllPlain(p);
      }
    }
    PlainIsClean(joined);
  }

  lemma PrintedAddress(ip: Ipv4)
    ensures var p := PrintAddress(ip); p != "" && AllPlain(p) && ',' !in p
  {
    AddressChars(ip);
  }

  lemma PrintedNet(net: Ipv4Net)
    ensures var p := PrintNet(net); p != "" && AllPlain(p) && ',' !in p
  {
    NetChars(net);
    assert forall c | c in PrintNet(net) :: IsAddressChar(c);
  }

  lemma HostLineReadsBack(addresses: seq<Ipv4>)
    requires addresses != []
    ensures var line := JoinWith(PrintAddresses(addresses), ',');
            Clean(line) && ReadHosts(Split(line, ',')) == addresses
  {
    var parts := PrintAddresses(addresses);
    forall i | 0 <= i < |parts|
      ensures parts[i] != "" && AllPlain(parts[i]) && ',' !in parts[i]
    {
      PrintedAddress(addresses[i]);
    }
    ListReadsBack(parts);
    HostsReadBack(addresses);
  }

  lemma NetLineReadsBack(nets: seq<Ipv4Net>)
    requires nets != []
    ensures var line := JoinWith(PrintNets(nets), ',');
            Clean(line) && ReadNets(Split(line, ',')) == nets
  {
    var parts := PrintNets(nets);
    forall i | 0 <= i < |parts|
      ensures parts[i] != "" && AllPlain(parts[i]) && ',' !in parts[i]
    {
      PrintedNet(nets[i]);
    }
    ListReadsBack(parts);
    NetsReadBack(nets);
  }

  lemma WordsReadBack(items: seq<string>)
    requires items != [] && KeepableWords(items)
    ensures TrimAll(Split(JoinWith(items, ','), ',')) == items
  {
    SplitJoin(items, ',');
    forall i | 0 <= i < |items|
      ensures Trim(items[i]) == items[i]
    {
      assert items[i] in items;
      TrimmedStays(items[i], WHITESPACE);
    }
    assert TrimAll(items) == items;
  }

  lemma HexReadsBack(digits: seq<nat>)
    requires IsHex(digits)
    ensures forall i | 0 <= i < |digits| :: DigitValue(PrintHex(digits)[i]) == digits[i]
    ensures forall c | c in PrintHex(digits) :: '0' <= c <= '9' || 'a' <= c <= 'f'
  {
  }

  lemma UuidReadsBack(id: Uuid)
    ensures ReadUuid(PrintUuid(id)) == Some(id) && Clean(PrintUuid(id))
  {
    var g := [PrintHex(id[..8]), PrintHex(id[8..12]), PrintHex(id[12..16]), PrintHex(id[16..20]), PrintHex(id[20..])];
    var s := PrintUuid(id);
    UuidGroups(id, g);
    assert |s| == 36;
    var all := g[0] + g[1] + g[2] + g[3] + g[4];
    HexReadsBack(id);
    assert all == PrintHex(id);
    assert ReadHex(all) == id;
  }

  lemma JoinStep(first: string, rest: seq<string>, separator: char)
    requires rest != []
    ensures JoinWith([first] + rest, separator) == first + [separator] + JoinWith(rest, separator)
  {
    assert ([first] + rest)[1..] == rest;
  }

  /** A UUID is also read in braces, as a URN, and as plain digits. */
  lemma UuidInOtherForms(id: Uuid)
    ensures ReadUuid("{" + PrintUuid(id) + "}") == Some(id)
    ensures ReadUuid("urn:uuid:" + PrintUuid(id)) == Some(id)
    ensures ReadUuid(PrintHex(id)) == Some(id)
  {
    var text := PrintUuid(id);
    UuidReadsBack(id);
    UuidGroups(id, [PrintHex(id[..8]), PrintHex(id[8..12]), PrintHex(id[12..16]), PrintHex(id[16..20]),
        PrintHex(id[20..])]);
    var braced, urn := "{" + text + "}", "urn:uuid:" + text;
    assert braced[1..37] == text && braced[37] == '}';
    assert urn[..9] == "urn:uuid:" && urn[9..] == text;
    assert ReadHex(PrintHex(id)) == id;
  }

  /** Nothing of another length is a UUID, and nothing of these lengths with other marks around it. */
  lemma OnlyUuidForms(s: string)
    requires ReadUuid(s).Some?
    ensures || |s| == 32 || |s| == 36
            || (|s| == 38 && s[0] == '{' && s[37] == '}')
            || (|s| == 45 && s[..9] == "urn:uuid:")
  {
  }

  lemma UuidGroups(id: Uuid, g: seq<string>)
    requires g == [PrintHex(id[..8]), PrintHex(id[8..12]), PrintHex(id[12..16]), PrintHex(id[16..20]),
        PrintHex(id[20..])]
    ensures Split(JoinWith(g, '-'), '-') == g && |JoinWith(g, '-')| == 36 && Clean(JoinWith(g, '-'))
  {
    HexReadsBack(id[..8]);
    HexReadsBack(id[8..12]);
    HexReadsBack(id[12..16]);
    HexReadsBack(id[16..20]);
    HexReadsBack(id[20..]);
    SplitJoin(g, '-');
    JoinedChars(g, '-');
    var s := JoinWith(g, '-');
    JoinStep(g[0], [g[1], g[2], g[3], g[4]], '-');
    JoinStep(g[1], [g[2], g[3], g[4]], '-');
    JoinStep(g[2], [g[3], g[4]], '-');
    JoinStep(g[3], [g[4]], '-');
    forall c | c in s
      ensures IsPlain(c)
    {
    }
    PlainIsClean(s);
  }

  /** A keepable value makes a clean line that reads back as it; where no value is written, it is the default. */
  lemma ValueReadsBack(kind: Kind, v: Value)
    requires GoodKind(kind) && Typed(kind, v) && Keepable(kind, v)
    ensures var line := Print(kind, v);
            if line == None || line == Some("") then v == Default(kind)
            else Clean(line.value) && Read(kind, line.value) == v
  {
    match kind
    case PlainKind(_) =>
    case SecretKind =>
      SecretReadsBack(v.text);
      SecretIsClean(v.text);
    case MaybeKind =>
    case FlagKind =>
      PlainIsClean("true");
      PlainIsClean("false");
    case CountKind(limit, _) =>
      DecimalIsClean(v.n);
      ParsesDecimal(v.n, limit);
    case SpanKind(_) =>
      DecimalIsClean(v.time.secs);
      ParsesDecimal(v.time.secs, U64_LIMIT);
    case LeaseKind =>
      if v.limit.Some? {
        DecimalIsClean(v.limit.value.secs);
        ParsesDecimal(v.limit.value.secs, U64_LIMIT);
      }
    case WordsKind =>
      if v.items != [] {
        WordsReadBack(v.items);
      }
    case HostsKind =>
      if v.addresses != [] {
        HostLineReadsBack(v.addresses);
      }
    case NetsKind =>
      if v.nets != [] {
        NetLineReadsBack(v.nets);
      }
    case ChoiceKind(options) => ChoiceReadsBack(options, v.index);
    case IdentityKind => UuidReadsBack(v.id);
  }

  // ----- What reading can produce -----

  lemma {:induction false} SplitEnds(s: string, separator: char)
    requires s != ""
    ensures var parts := Split(s, separator);
            && (if parts[0] == "" then s[0] == separator && |parts| > 1 else s[0] == parts[0][0])
            && var last := parts[|parts| - 1];
               if last == "" then s[|s| - 1] == separator && |parts| > 1 else s[|s| - 1] == last[|last| - 1]
  {
    if |s| > 1 {
      SplitEnds(s[1..], separator);
    } else {
      assert s[1..] == "";
    }
  }

  lemma {:induction false} JoinedEnds(parts: seq<string>, separator: char)
    requires |parts| > 1
    ensures var joined := JoinWith(parts, separator);
            && joined != ""
            && (if parts[0] == "" then joined[0] == separator else joined[0] == parts[0][0])
            && var last := parts[|parts| - 1];
               if last == "" then joined[|joined| - 1] == separator else joined[|joined| - 1] == last[|last| - 1]
  {
    if |parts| > 2 {
      JoinedEnds(parts[1..], separator);
    }
  }

  /** A trimmed text keeps an end that is not whitespace. */
  lemma TrimKeepsEnds(s: string)
    ensures s != "" && s[0] !in WHITESPACE ==> Trim(s) != "" && Trim(s)[0] == s[0]
    ensures s != "" && s[|s| - 1] !in WHITESPACE ==> Trim(s) != "" && Trim(s)[|Trim(s)| - 1] == s[|s| - 1]
  {
    if s != "" && s[0] !in WHITESPACE {
      TrimKeepsFirst(s, WHITESPACE);
    }
    if s != "" && s[|s| - 1] !in WHITESPACE {
      TrimStartKeepsLast(s, WHITESPACE);
    }
  }

  lemma {:induction false} TrimStartKeepsLast(s: string, drop: set<char>)
    requires s != "" && s[|s| - 1] !in drop
    ensures TrimStart(s, drop) != "" && TrimStart(s, drop)[|TrimStart(s, drop)| - 1] == s[|s| - 1]
  {
    if s[0] in drop {
      TrimStartKeepsLast(s[1..], drop);
    }
  }

  lemma ItemsAreTrimmed(v: string)
    requires '\n' !in v
    ensures forall w | w in TrimAll(Split(v, ',')) :: ',' !in w && Trimmed(w, WHITESPACE) && '\n' !in w
  {
    var parts := Split(v, ',');
    SplitParts(v, ',');
    forall i | 0 <= i < |parts|
      ensures var w := Trim(parts[i]); ',' !in w && Trimmed(w, WHITESPACE) && '\n' !in w
    {
      assert parts[i] in parts;
      TrimMatchesTrims(parts[i], WHITESPACE);
    }
  }

  lemma SingleItem(v: string)
    requires Clean(v) && |Split(v, ',')| == 1
    ensures JoinWith(TrimAll(Split(v, ',')), ',') == v
  {
    JoinSplit(v, ',');
    TrimmedStays(v, WHITESPACE);
  }

  lemma JoinedKeepsEnds(v: string)
    requires Clean(v)
    ensures var joined := JoinWith(TrimAll(Split(v, ',')), ','); joined != "" && Trimmed(joined, EDGES)
  {
    var parts := Split(v, ',');
    if |parts| == 1 {
      SingleItem(v);
    } else {
      SplitEnds(v, ',');
      TrimmedItemsKeepEnds(parts, v[0], v[|v| - 1]);
    }
  }

  lemma TrimmedItemsKeepEnds(parts: seq<string>, first: char, last: char)
    requires |parts| > 1 && first !in EDGES && last !in EDGES
    requires if parts[0] == "" then first == ',' else first == parts[0][0]
    requires var end := parts[|parts| - 1]; if end == "" then last == ',' else last == end[|end| - 1]
    ensures var joined := JoinWith(TrimAll(parts), ','); joined != "" && Trimmed(joined, EDGES)
  {
    JoinedEnds(TrimAll(parts), ',');
    TrimKeepsEnds(parts[0]);
    TrimKeepsEnds(parts[|parts| - 1]);
  }

  /** A list read from a clean value can be kept. */
  lemma WordsAreKeepable(v: string)
    requires Clean(v)
    ensures KeepableWords(TrimAll(Split(v, ',')))
  {
    var items := TrimAll(Split(v, ','));
    ItemsAreTrimmed(v);
    JoinedKeepsEnds(v);
    JoinedChars(items, ',');
  }

  /** Whatever is read from a clean value can be kept. */
  lemma ReadIsKeepable(kind: Kind, v: string)
    requires GoodKind(kind) && Clean(v)
    ensures Typed(kind, Read(kind, v)) && Keepable(kind, Read(kind, v))
  {
    if kind.WordsKind? {
      WordsAreKeepable(v);
    }
  }

  lemma DefaultIsKeepable(kind: Kind)
    requires GoodKind(kind)
    ensures Typed(kind, Default(kind)) && Keepable(kind, Default(kind))
  {
  }
}
