/** The conversions between S-expressions and JSON (crates/snxcore/src/sexpr.rs). */
module SexprJson {
  import opened Wrappers
  import opened Sexprs
  import opened Numerals

  /** Members are in key order, as in the source's ordered map. */
  datatype Json =
    | JNull
    | JBool(flag: bool)
    | JNumber(number: nat)
    | JOtherNumber(digits: OtherNumber)
    | JString(text: string)
    | JArray(elements: seq<Json>)
    | JObject(members: seq<Member>)

  /** A negative or fractional number, as it is written. */
  type OtherNumber = s: string | s != "" && (s[0] == '-' || '.' in s || 'e' in s[1..]) witness "-1"

  datatype Member = Member(key: string, value: Json)

  predicate IsHexMarked(s: string) {
    |s| >= 2 && s[..2] == "0x"
  }

  function TrimHexMarks(s: string): string {
    if IsHexMarked(s) then TrimHexMarks(s[2..]) else s
  }

  /** The number a value stands for, if any: decimal, or hexadecimal behind "0x". */
  function ReadNumber(text: string): (r: Option<nat>)
    ensures r.Some? ==> r.value < U32_LIMIT
  {
    var decimal := ParseUnsigned(text, 10, U32_LIMIT);
    if decimal.Some? then decimal
    else if IsHexMarked(text) then ParseUnsigned(TrimHexMarks(text), 16, U32_LIMIT)
    else None
  }

  function ToJsonValue(text: string): Json {
    match ReadNumber(text)
    case Some(n) => JNumber(n)
    case None =>
      if !IsHexMarked(text) && text == "true" then JBool(true)
      else if !IsHexMarked(text) && text == "false" then JBool(false)
      else JString(text)
  }

  function ToJson(e: Sexpr): Json
    decreases e, 1
  {
    match e
    case Null => JNull
    case Value(text) => ToJsonValue(text)
    case Object(None, fields) => JObject(MembersOf(fields))
    case Object(Some(name), fields) => JObject([Member("(" + name, JObject(MembersOf(fields)))])
    case Array(items) => JArray(ElementsOf(items))
  }

  function MembersOf(fields: seq<Field>): (r: seq<Member>)
    ensures |r| == |fields|
    ensures forall i | 0 <= i < |r| :: r[i].key == fields[i].key
    decreases fields, 0
  {
    if fields == [] then [] else [Member(fields[0].key, ToJson(fields[0].value))] + MembersOf(fields[1..])
  }

  function ElementsOf(items: seq<Sexpr>): seq<Json>
    decreases items, 0
  {
    if items == [] then [] else [ToJson(items[0])] + ElementsOf(items[1..])
  }

  predicate IsNameKey(key: string) {
    key != "" && key[0] == '('
  }

  /** An object is taken for a named one when its first key starts with a parenthesis. */
  predicate LooksNamed(members: seq<Member>) {
    members != [] && IsNameKey(members[0].key)
  }

  function FromJson(j: Json): Sexpr
    decreases j, 1
  {
    match j
    case JNull => Null
    case JBool(flag) => Value(if flag then "true" else "false")
    case JNumber(n) => Value(Decimal(n))
    case JOtherNumber(digits) => Value(digits)
    case JString(text) => Value(text)
    case JArray(elements) => Array(ItemsOf(elements))
    case JObject(members) =>
      if LooksNamed(members) then
        var first := members[0];
        Object(Some(first.key[1..]), if first.value.JObject? then FieldsOf(first.value.members) else [])
      else Object(None, FieldsOf(members))
  }

  function FieldsOf(members: seq<Member>): (r: seq<Field>)
    ensures |r| == |members|
    decreases members, 0
  {
    if members == [] then [] else [Field(members[0].key, FromJson(members[0].value))] + FieldsOf(members[1..])
  }

  function ItemsOf(elements: seq<Json>): seq<Sexpr>
    decreases elements, 0
  {
    if elements == [] then [] else [FromJson(elements[0])] + ItemsOf(elements[1..])
  }

  /** One trip through JSON and back. */
  function Normalize(e: Sexpr): Sexpr {
    FromJson(ToJson(e))
  }

  /** JSON that a trip through S-expressions leaves alone. */
  predicate Stable(j: Json)
    decreases j, 1
  {
    match j
    case JNull => true
    case JBool(_) => true
    case JNumber(n) => n < U32_LIMIT
    case JOtherNumber(_) => false
    case JString(text) => ToJsonValue(text).JString?
    case JArray(elements) => StableElements(elements)
    case JObject(members) =>
      if LooksNamed(members) then
        |members| == 1 && members[0].value.JObject? && StableMembers(members[0].value.members)
      else StableMembers(members)
  }

  predicate StableElements(elements: seq<Json>)
    decreases elements, 0
  {
    elements == [] || (Stable(elements[0]) && StableElements(elements[1..]))
  }

  predicate StableMembers(members: seq<Member>)
    decreases members, 0
  {
    members == [] || (Stable(members[0].value) && StableMembers(members[1..]))
  }

  lemma NumberTextReadsBack(n: nat)
    requires n < U32_LIMIT
    ensures ToJsonValue(Decimal(n)) == JNumber(n)
  {
    ParsesDecimal(n, U32_LIMIT);
  }

  lemma EndsDiffer(s: string, t: string)
    requires |s| > 0 && |t| > 0 && s[|s| - 1] != t[|t| - 1]
    ensures s != t
  {
  }

  lemma NoOtherReading(text: string)
    requires |text| > 0 && '0' <= text[|text| - 1] <= '9' && (|text| > 1 ==> text[1] != 'x')
    ensures ToJsonValue(text) == match ParseUnsigned(text, 10, U32_LIMIT)
                                 case Some(n) => JNumber(n)
                                 case None => JString(text)
  {
    if |text| >= 2 {
      EndsDiffer(text[..2], "0x");
    }
    EndsDiffer(text, "true");
    EndsDiffer(text, "false");
  }

  lemma SignInFront(digits: string)
    requires digits != "" && forall i | 0 <= i < |digits| :: '0' <= digits[i] <= '9'
    ensures var text := "+" + digits;
            '0' <= text[|text| - 1] <= '9' && (|text| > 1 ==> text[1] != 'x')
  {
    assert ("+" + digits)[1] == digits[0];
  }

  /** A value of decimal digits, signed or not, is that number in JSON, and stays a text if it is too large. */
  lemma DecimalIsNumber(n: nat)
    ensures ToJson(Value(Decimal(n))) == if n < 0x1_0000_0000 then JNumber(n) else JString(Decimal(n))
    ensures var text := "+" + Decimal(n); ToJson(Value(text)) == if n < 0x1_0000_0000 then JNumber(n) else JString(text)
  {
    var digits := Decimal(n);
    DecimalIsRead(n, U32_LIMIT);
    SignInFront(digits);
    NoOtherReading(digits);
    NoOtherReading("+" + digits);
  }

  lemma BoolTextReadsBack(flag: bool)
    ensures ToJsonValue(if flag then "true" else "false") == JBool(flag)
  {
    assert "true"[3] == 'e' && "false"[4] == 'e';
    assert ParseDigits("true", 10).None?;
    assert ParseDigits("false", 10).None?;
  }

  // ----- Hexadecimal values -----

  /** A digit in hexadecimal, with capital or with small letters. */
  function HexChar(d: nat, capital: bool): (c: char)
    requires d < 16
    ensures DigitValue(c) == d && c != '+' && c != 'x'
  {
    if d < 10 then ('0' as nat + d) as char
    else if capital then ('A' as nat + d - 10) as char
    else ('a' as nat + d - 10) as char
  }

  function Hexadecimal(n: nat, capital: bool): (s: string)
    ensures s != "" && forall i | 0 <= i < |s| :: s[i] != '+' && s[i] != 'x'
  {
    if n < 16 then [HexChar(n, capital)] else Hexadecimal(n / 16, capital) + [HexChar(n % 16, capital)]
  }

  lemma {:induction false} ParsesHexadecimal(n: nat, capital: bool)
    ensures ParseDigits(Hexadecimal(n, capital), 16) == Some(n)
  {
    var s := Hexadecimal(n, capital);
    if n < 16 {
      assert s[..|s| - 1] == "";
    } else {
      ParsesHexadecimal(n / 16, capital);
      assert s[..|s| - 1] == Hexadecimal(n / 16, capital);
    }
  }

  lemma MarkedText(h: string)
    requires h != "" && forall i | 0 <= i < |h| :: h[i] != '+' && h[i] != 'x'
    ensures var text := "0x" + h;
            && IsHexMarked(text) && TrimHexMarks(text) == h
            && ReadNumber(text) == ParseUnsigned(h, 16, U32_LIMIT)
  {
    var text := "0x" + h;
    assert text[..2] == "0x" && text[2..] == h;
    assert !IsHexMarked(h) by {
      if |h| >= 2 {
        assert h[..2][1] == h[1] && "0x"[1] == 'x';
      }
    }
    assert TrimHexMarks(h) == h;
    assert text[0] == '0' && text[1] == 'x';
    BadDigit(text, 10, 1);
  }

  /** A value of hexadecimal digits behind "0x" is that number in JSON, and stays a text if it is too large. */
  lemma HexadecimalIsNumber(n: nat, capital: bool)
    ensures var text := "0x" + Hexadecimal(n, capital);
            ToJson(Value(text)) == if n < 0x1_0000_0000 then JNumber(n) else JString(text)
  {
    var h := Hexadecimal(n, capital);
    ParsesHexadecimal(n, capital);
    MarkedText(h);
    assert ParseUnsigned(h, 16, U32_LIMIT) == if n < U32_LIMIT then Some(n) else None;
  }

  /** Exactly the stable JSON survives the trip through an S-expression. */
  lemma {:induction false} StableSurvives(j: Json)
    ensures ToJson(FromJson(j)) == j <==> Stable(j)
    decreases j, 1
  {
    match j
    case JNull =>
    case JBool(flag) => BoolTextReadsBack(flag);
    case JNumber(n) => if n < U32_LIMIT { NumberTextReadsBack(n); }
    case JOtherNumber(_) =>
    case JString(text) =>
    case JArray(elements) => StableElementsSurvive(elements);
    case JObject(members) =>
      if LooksNamed(members) {
        var first := members[0];
        assert "(" + first.key[1..] == first.key;
        if first.value.JObject? {
          StableMembersSurvive(first.value.members);
        }
        if |members| == 1 {
          assert members == [Member(first.key, first.value)];
        }
      } else {
        StableMembersSurvive(members);
      }
  }

  lemma {:induction false} StableElementsSurvive(elements: seq<Json>)
    ensures ElementsOf(ItemsOf(elements)) == elements <==> StableElements(elements)
    decreases elements, 0
  {
    if elements != [] {
      StableSurvives(elements[0]);
      StableElementsSurvive(elements[1..]);
      var items := ItemsOf(elements);
      assert items[1..] == ItemsOf(elements[1..]);
      assert elements == [elements[0]] + elements[1..];
      assert ElementsOf(items)[1..] == ElementsOf(items[1..]);
    }
  }

  lemma {:induction false} StableMembersSurvive(members: seq<Member>)
    ensures MembersOf(FieldsOf(members)) == members <==> StableMembers(members)
    decreases members, 0
  {
    if members != [] {
      StableSurvives(members[0].value);
      StableMembersSurvive(members[1..]);
      var fields := FieldsOf(members);
      assert fields[1..] == FieldsOf(members[1..]);
      assert members == [Member(members[0].key, members[0].value)] + members[1..];
      assert MembersOf(fields)[1..] == MembersOf(fields[1..]);
    }
  }

  /** No unnamed object's first key starts with a parenthesis, so none is mistaken for a named one. */
  predicate NamesUnambiguous(e: Sexpr)
    decreases e, 1
  {
    match e
    case Null => true
    case Value(_) => true
    case Object(name, fields) =>
      (name.None? && fields != [] ==> !IsNameKey(fields[0].key)) && NamesUnambiguousFields(fields)
    case Array(items) => NamesUnambiguousItems(items)
  }

  predicate NamesUnambiguousFields(fields: seq<Field>)
    decreases fields, 0
  {
    fields == [] || (NamesUnambiguous(fields[0].value) && NamesUnambiguousFields(fields[1..]))
  }

  predicate NamesUnambiguousItems(items: seq<Sexpr>)
    decreases items, 0
  {
    items == [] || (NamesUnambiguous(items[0]) && NamesUnambiguousItems(items[1..]))
  }

  lemma {:induction false} UnambiguousIsStable(e: Sexpr)
    requires NamesUnambiguous(e)
    ensures Stable(ToJson(e))
    decreases e, 1
  {
    match e
    case Null =>
    case Value(text) =>
    case Object(_, fields) => UnambiguousFieldsAreStable(fields);
    case Array(items) => UnambiguousItemsAreStable(items);
  }

  lemma {:induction false} UnambiguousFieldsAreStable(fields: seq<Field>)
    requires NamesUnambiguousFields(fields)
    ensures StableMembers(MembersOf(fields))
    decreases fields, 0
  {
    if fields != [] {
      UnambiguousIsStable(fields[0].value);
      UnambiguousFieldsAreStable(fields[1..]);
      assert MembersOf(fields)[1..] == MembersOf(fields[1..]);
    }
  }

  lemma {:induction false} UnambiguousItemsAreStable(items: seq<Sexpr>)
    requires NamesUnambiguousItems(items)
    ensures StableElements(ElementsOf(items))
    decreases items, 0
  {
    if items != [] {
      UnambiguousIsStable(items[0]);
      UnambiguousItemsAreStable(items[1..]);
      assert ElementsOf(items)[1..] == ElementsOf(items[1..]);
    }
  }

  /** Normalizing keeps the JSON exactly when that JSON is stable, and then normalizing twice changes nothing more. */
  lemma NormalizeKeepsJson(e: Sexpr)
    ensures ToJson(Normalize(e)) == ToJson(e) <==> Stable(ToJson(e))
    ensures Stable(ToJson(e)) ==> Normalize(Normalize(e)) == Normalize(e)
    ensures NamesUnambiguous(e) ==> Stable(ToJson(e))
  {
    StableSurvives(ToJson(e));
    if NamesUnambiguous(e) {
      UnambiguousIsStable(e);
    }
  }

  /** Every value that reads as a number is written as that number's plain decimal. */
  predicate Canonical(e: Sexpr)
    decreases e, 1
  {
    match e
    case Null => true
    case Value(text) => ReadNumber(text).Some? ==> text == Decimal(ReadNumber(text).value)
    case Object(_, fields) => CanonicalFields(fields)
    case Array(items) => CanonicalItems(items)
  }

  predicate CanonicalFields(fields: seq<Field>)
    decreases fields, 0
  {
    fields == [] || (Canonical(fields[0].value) && CanonicalFields(fields[1..]))
  }

  predicate CanonicalItems(items: seq<Sexpr>)
    decreases items, 0
  {
    items == [] || (Canonical(items[0]) && CanonicalItems(items[1..]))
  }

  /** Normalizing changes nothing exactly when every number is already canonical and no key looks like a name. */
  lemma {:induction false} NormalizeFixesCanonical(e: Sexpr)
    ensures Normalize(e) == e <==> Canonical(e) && NamesUnambiguous(e)
    decreases e, 1
  {
    match e
    case Null =>
    case Value(text) =>
    case Object(name, fields) =>
      NormalizeFixesCanonicalFields(fields);
      if name.Some? {
        assert ("(" + name.value)[1..] == name.value;
      }
    case Array(items) => NormalizeFixesCanonicalItems(items);
  }

  lemma SameHeadAndTail<T>(s: seq<T>, t: seq<T>)
    requires s != [] && t != []
    ensures s == t <==> s[0] == t[0] && s[1..] == t[1..]
  {
    assert s == [s[0]] + s[1..] && t == [t[0]] + t[1..];
  }

  lemma FirstFieldThere(fields: seq<Field>)
    requires fields != []
    ensures var there := FieldsOf(MembersOf(fields));
            && there[0] == Field(fields[0].key, Normalize(fields[0].value))
            && there[1..] == FieldsOf(MembersOf(fields[1..]))
  {
    assert MembersOf(fields)[1..] == MembersOf(fields[1..]);
  }

  lemma {:induction false} NormalizeFixesCanonicalFields(fields: seq<Field>)
    ensures FieldsOf(MembersOf(fields)) == fields <==> CanonicalFields(fields) && NamesUnambiguousFields(fields)
    decreases fields, 0
  {
    if fields != [] {
      NormalizeFixesCanonical(fields[0].value);
      NormalizeFixesCanonicalFields(fields[1..]);
      FirstFieldThere(fields);
      SameHeadAndTail(FieldsOf(MembersOf(fields)), fields);
    }
  }

  lemma {:induction false} NormalizeFixesCanonicalItems(items: seq<Sexpr>)
    ensures ItemsOf(ElementsOf(items)) == items <==> CanonicalItems(items) && NamesUnambiguousItems(items)
    decreases items, 0
  {
    if items != [] {
      NormalizeFixesCanonical(items[0]);
      NormalizeFixesCanonicalItems(items[1..]);
      var elements := ElementsOf(items);
      assert elements[1..] == ElementsOf(items[1..]);
      assert items == [items[0]] + items[1..];
      assert ItemsOf(elements)[1..] == ItemsOf(elements[1..]);
    }
  }

  /** With a key that starts with a parenthesis the trip can lose a field. */
  lemma ParenthesisKeyLosesField()
    ensures var e := Object(None, [Field("(a", Value("x"))]);
            Normalize(e) == Object(Some("a"), []) && ToJson(Normalize(e)) != ToJson(e)
  {
    var e := Object(None, [Field("(a", Value("x"))]);
    assert ParseDigits("x", 10).None? by { assert DigitValue('x') == 33; }
    assert ToJsonValue("x") == JString("x");
    assert MembersOf([Field("(a", Value("x"))]) == [Member("(a", JString("x"))];
    assert "(a"[1..] == "a";
  }
}
