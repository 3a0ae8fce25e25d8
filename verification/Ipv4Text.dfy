/** IPv4 addresses and networks as text (crates/snxcore/src/util.rs). */
module Ipv4Text {
  import opened Numerals
  import opened Text
  import opened Utf8
  import opened Wrappers

  datatype Ipv4 = Ipv4(a: byte, b: byte, c: byte, d: byte)

  type Prefix = n: nat | n <= 32

  /** A network keeps all bits of the address it was written with. */
  datatype Ipv4Net = Ipv4Net(address: Ipv4, prefix: Prefix)

  /** At most three digits without a leading zero, below a limit. */
  function ParseSmall(s: string, limit: nat): (r: Option<nat>)
    ensures r.Some? ==> r.value < limit
  {
    if 1 <= |s| <= 3 && (s[0] != '0' || |s| == 1) then
      match ParseDigits(s, 10)
      case None => None
      case Some(n) => if n < limit then Some(n) else None
    else None
  }

  function PrintAddress(ip: Ipv4): string {
    JoinWith([Decimal(ip.a), Decimal(ip.b), Decimal(ip.c), Decimal(ip.d)], '.')
  }

  function ParseAddress(s: string): Option<Ipv4> {
    var parts := Split(s, '.');
    if |parts| != 4 then None
    else
      var a, b, c, d :=
        ParseSmall(parts[0], 256), ParseSmall(parts[1], 256), ParseSmall(parts[2], 256), ParseSmall(parts[3], 256);
      if a.Some? && b.Some? && c.Some? && d.Some? then Some(Ipv4(a.value, b.value, c.value, d.value)) else None
  }

  /** A single host is written without its prefix length. */
  function PrintNet(net: Ipv4Net): string {
    if net.prefix == 32 then PrintAddress(net.address)
    else PrintAddress(net.address) + ['/'] + Decimal(net.prefix)
  }

  function ParseNet(s: string): Option<Ipv4Net> {
    var parts := Split(s, '/');
    if |parts| != 2 then None
    else
      var address, prefix := ParseAddress(parts[0]), ParseSmall(parts[1], 33);
      if address.Some? && prefix.Some? then Some(Ipv4Net(address.value, prefix.value)) else None
  }

  function ParseAddressOrNet(s: string): Option<Ipv4Net> {
    match ParseNet(s)
    case Some(net) => Some(net)
    case None =>
      (match ParseAddress(s)
       case Some(ip) => Some(Ipv4Net(ip, 32))
       case None => None)
  }

  lemma {:induction false} DecimalShape(n: nat)
    ensures n > 0 ==> Decimal(n)[0] != '0'
    ensures n < 10 ==> |Decimal(n)| == 1
    ensures n < 100 ==> |Decimal(n)| <= 2
    ensures n < 1000 ==> |Decimal(n)| <= 3
  {
    if n >= 10 {
      DecimalShape(n / 10);
    }
  }

  lemma SmallReadsBack(n: nat, limit: nat)
    requires n < limit <= 1000
    ensures ParseSmall(Decimal(n), limit) == Some(n)
  {
    DecimalShape(n);
    ParsesDecimalDigits(n);
  }

  lemma AddressParts(ip: Ipv4)
    ensures Split(PrintAddress(ip), '.') == [Decimal(ip.a), Decimal(ip.b), Decimal(ip.c), Decimal(ip.d)]
  {
    var parts := [Decimal(ip.a), Decimal(ip.b), Decimal(ip.c), Decimal(ip.d)];
    forall p | p in parts
      ensures '.' !in p
    {
      assert forall i | 0 <= i < |p| :: '0' <= p[i] <= '9';
    }
    SplitJoin(parts, '.');
  }

  lemma AddressRoundTrip(ip: Ipv4)
    ensures ParseAddress(PrintAddress(ip)) == Some(ip)
  {
    AddressParts(ip);
    SmallReadsBack(ip.a, 256);
    SmallReadsBack(ip.b, 256);
    SmallReadsBack(ip.c, 256);
    SmallReadsBack(ip.d, 256);
  }

  predicate IsAddressChar(c: char) {
    '0' <= c <= '9' || c == '.' || c == '/'
  }

  lemma {:induction false} JoinedChars(parts: seq<string>, separator: char)
    ensures forall c | c in JoinWith(parts, separator) :: c == separator || exists p | p in parts :: c in p
  {
    if |parts| > 1 {
      JoinedChars(parts[1..], separator);
      var joined := JoinWith(parts, separator);
      forall c | c in joined
        ensures c == separator || exists p | p in parts :: c in p
      {
        if c in parts[0] {
        } else if c != separator {
          assert c in JoinWith(parts[1..], separator);
          var p :| p in parts[1..] && c in p;
          assert p in parts;
        }
      }
    } else if |parts| == 1 {
      assert parts[0] in parts;
    }
  }

  lemma AddressChars(ip: Ipv4)
    ensures PrintAddress(ip) != ""
    ensures forall c | c in PrintAddress(ip) :: '0' <= c <= '9' || c == '.'
  {
    var parts := [Decimal(ip.a), Decimal(ip.b), Decimal(ip.c), Decimal(ip.d)];
    JoinedChars(parts, '.');
    forall p, c | p in parts && c in p
      ensures '0' <= c <= '9'
    {
      assert forall i | 0 <= i < |p| :: '0' <= p[i] <= '9';
    }
  }

  lemma NetChars(net: Ipv4Net)
    ensures PrintNet(net) != ""
    ensures forall c | c in PrintNet(net) :: IsAddressChar(c)
  {
    AddressChars(net.address);
  }

  /** Every network of every prefix length, single hosts included, reads back as itself. */
  lemma NetRoundTrip(net: Ipv4Net)
    ensures ParseAddressOrNet(PrintNet(net)) == Some(net)
  {
    var host := PrintAddress(net.address);
    AddressRoundTrip(net.address);
    AddressChars(net.address);
    if net.prefix == 32 {
      SplitWhole(host, '/');
    } else {
      var digits := Decimal(net.prefix);
      SmallReadsBack(net.prefix, 33);
      SplitFirst(host, digits, '/');
      SplitWhole(digits, '/');
    }
  }

  // ----- Nothing else is read -----

  lemma DigitReadsBack(c: char)
    requires DigitValue(c) < 10
    ensures c == Digit(DigitValue(c))
  {
  }

  lemma OneMoreDigit(m: nat, d: nat)
    requires m > 0 && d < 10
    ensures Decimal(m * 10 + d) == Decimal(m) + [Digit(d)]
  {
    var n := m * 10 + d;
    assert n / 10 == m && n % 10 == d;
  }

  lemma LastDigit(s: string, n: nat)
    requires s != "" && ParseDigits(s, 10) == Some(n)
    ensures ParseDigits(s[..|s| - 1], 10).Some? && DigitValue(s[|s| - 1]) < 10
    ensures n == ParseDigits(s[..|s| - 1], 10).value * 10 + DigitValue(s[|s| - 1])
  {
  }

  lemma {:induction false} DigitsAreDecimal(s: string, n: nat)
    requires s != "" && ParseDigits(s, 10) == Some(n) && (s[0] != '0' || |s| == 1)
    ensures s == Decimal(n) && (s[0] != '0' ==> n > 0)
    decreases |s|
  {
    var front, last := s[..|s| - 1], s[|s| - 1];
    LastDigit(s, n);
    DigitReadsBack(last);
    assert s == front + [last];
    if |s| == 1 {
      assert front == "";
      assert ParseDigits("", 10) == Some(0);
    } else {
      var m := ParseDigits(front, 10).value;
      assert front[0] == s[0];
      DigitsAreDecimal(front, m);
      OneMoreDigit(m, DigitValue(last));
    }
  }

  lemma SmallIsDecimal(s: string, limit: nat)
    requires ParseSmall(s, limit).Some?
    ensures s == Decimal(ParseSmall(s, limit).value)
  {
    DigitsAreDecimal(s, ParseSmall(s, limit).value);
  }

  lemma AddressIsPrinted(s: string)
    requires ParseAddress(s).Some?
    ensures s == PrintAddress(ParseAddress(s).value)
  {
    var parts := Split(s, '.');
    JoinSplit(s, '.');
    SmallIsDecimal(parts[0], 256);
    SmallIsDecimal(parts[1], 256);
    SmallIsDecimal(parts[2], 256);
    SmallIsDecimal(parts[3], 256);
    var ip := ParseAddress(s).value;
    assert parts == [Decimal(ip.a), Decimal(ip.b), Decimal(ip.c), Decimal(ip.d)];
  }

  /** Only an address, with or without a prefix length in plain decimals, is read at all. */
  lemma OnlyPrintedNets(s: string)
    requires ParseAddressOrNet(s).Some?
    ensures var net := ParseAddressOrNet(s).value;
            || s == PrintAddress(net.address) + ['/'] + Decimal(net.prefix)
            || (s == PrintAddress(net.address) && net.prefix == 32)
  {
    if ParseNet(s).Some? {
      var parts := Split(s, '/');
      JoinSplit(s, '/');
      AddressIsPrinted(parts[0]);
      SmallIsDecimal(parts[1], 33);
      assert parts[1..] == [parts[1]];
    } else {
      AddressIsPrinted(s);
    }
  }

  lemma PrintNetInjective(m: Ipv4Net, n: Ipv4Net)
    requires PrintNet(m) == PrintNet(n)
    ensures m == n
  {
    NetRoundTrip(m);
    NetRoundTrip(n);
  }
}
