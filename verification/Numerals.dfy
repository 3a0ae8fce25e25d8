/** Unsigned numbers as text: the standard library's decimal printer and its integer parser. */
module Numerals {
  import opened Wrappers

  const U32_LIMIT: nat := 0x1_0000_0000

  function DigitValue(c: char): nat {
    if '0' <= c <= '9' then c as nat - '0' as nat
    else if 'a' <= c <= 'z' then c as nat - 'a' as nat + 10
    else if 'A' <= c <= 'Z' then c as nat - 'A' as nat + 10
    else 36
  }

  function Digit(d: nat): (c: char)
    requires d < 10
    ensures DigitValue(c) == d && '0' <= c <= '9'
  {
    ('0' as nat + d) as char
  }

  function Decimal(n: nat): (s: string)
    ensures s != "" && forall i | 0 <= i < |s| :: '0' <= s[i] <= '9'
  {
    if n < 10 then [Digit(n)] else Decimal(n / 10) + [Digit(n % 10)]
  }

  /** The number a run of digits denotes, or nothing when a character is not a digit of the radix. */
  function ParseDigits(s: string, radix: nat): Option<nat> {
    if s == "" then Some(0)
    else
      var d := DigitValue(s[|s| - 1]);
      match ParseDigits(s[..|s| - 1], radix)
      case None => None
      case Some(n) => if d < radix then Some(n * radix + d) else None
  }

  /** An unsigned number below `limit`; one leading plus sign is accepted, as the source's parser does. */
  function ParseUnsigned(s: string, radix: nat, limit: nat): Option<nat> {
    var digits := if |s| > 1 && s[0] == '+' then s[1..] else s;
    if digits == "" then None
    else match ParseDigits(digits, radix)
         case None => None
         case Some(n) => if n < limit then Some(n) else None
  }

  lemma {:induction false} ParsesDecimalDigits(n: nat)
    ensures ParseDigits(Decimal(n), 10) == Some(n)
  {
    if n >= 10 {
      ParsesDecimalDigits(n / 10);
      var s := Decimal(n);
      assert s[..|s| - 1] == Decimal(n / 10);
    } else {
      var s := Decimal(n);
      assert s[..|s| - 1] == "";
    }
  }

  lemma ParsesDecimal(n: nat, limit: nat)
    requires n < limit
    ensures ParseUnsigned(Decimal(n), 10, limit) == Some(n)
  {
    ParsesDecimalDigits(n);
    assert Decimal(n)[0] != '+';
  }

  /** A decimal number is read if it is below the limit, also behind one plus sign; a sign alone is no number. */
  lemma DecimalIsRead(n: nat, limit: nat)
    ensures ParseUnsigned(Decimal(n), 10, limit) == if n < limit then Some(n) else None
    ensures ParseUnsigned("+" + Decimal(n), 10, limit) == if n < limit then Some(n) else None
    ensures ParseUnsigned("+", 10, limit) == ParseUnsigned("", 10, limit) == None
  {
    ParsesDecimalDigits(n);
    var digits := Decimal(n);
    assert digits[0] != '+';
    assert ("+" + digits)[1..] == digits;
    assert "+"[0] == '+';
    BadDigit("+", 10, 0);
  }

  /** A character that is no digit of the radix makes the whole text unreadable. */
  lemma {:induction false} BadDigit(s: string, radix: nat, i: nat)
    requires i < |s| && DigitValue(s[i]) >= radix
    ensures ParseDigits(s, radix) == None
  {
    if i < |s| - 1 {
      BadDigit(s[..|s| - 1], radix, i);
    }
  }
}
