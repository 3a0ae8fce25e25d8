/**
 * Nothing else can be read back: a printed expression parses to itself only if it is one that the printer and the
 * grammar agree on (crates/snxcore/src/sexpr.rs, crates/snxcore/src/sexpr.pest).
 */
module SexprExactness {
  import opened Sexprs
  import opened SexprReader
  import opened SexprRoundTrip
  import opened Text
  import opened Wrappers

  // ----- Texts in which no unquoted value breaks at a backslash -----

  /** From here to the next parenthesis, the first break, if there is one, is a quote and not a backslash. */
  predicate RegionFine(s: string)
    decreases |s|
  {
    s == "" || IsParen(s[0]) || s[0] == '"' || (CharLen(s) > 0 && RegionFine(s[CharLen(s)..]))
  }

  /** That is so behind every opening parenthesis. */
  predicate RegionsFine(s: string) {
    s == "" || ((s[0] == '(' ==> RegionFine(s[1..])) && RegionsFine(s[1..]))
  }

  lemma {:induction false} RegionsFineAfter(a: string, b: string)
    requires RegionsFine(a + b)
    ensures RegionsFine(b)
  {
    if a == "" {
      assert a + b == b;
    } else {
      assert (a + b)[1..] == a[1..] + b;
      RegionsFineAfter(a[1..], b);
    }
  }

  lemma {:induction false} RegionFineSkips(s: string)
    requires RegionFine(s)
    ensures RegionFine(SkipBlank(s))
  {
    if s != "" && IsBlank(s[0]) {
      RegionFineSkips(s[1..]);
    }
  }

  lemma {:induction false} SkipBlankAfter(s: string)
    requires RegionsFine(s)
    ensures RegionsFine(SkipBlank(s))
  {
    if s != "" && IsBlank(s[0]) {
      SkipBlankAfter(s[1..]);
    }
  }

  // ----- What the reader can return -----

  lemma Glue(blank: string, c: char, inner: string, rest: string)
    requires NoParens(blank) && !IsParen(c) && NoParens(inner)
    ensures blank + ([c] + (inner + rest)) == (blank + [c] + inner) + rest
    ensures NoParens(blank + [c] + inner)
  {
  }

  lemma GlueAfter(s: string, blank: string, after: string, inner: string, rest: string)
    requires s == blank + after && after != "" && after[1..] == inner + rest
    requires NoParens(blank) && !IsParen(after[0]) && NoParens(inner)
    ensures s == (blank + [after[0]] + inner) + rest && NoParens(blank + [after[0]] + inner)
  {
    assert after == [after[0]] + after[1..];
    Glue(blank, after[0], inner, rest);
  }

  lemma {:induction false} SkipBlankSplits(s: string) returns (blank: string)
    ensures s == blank + SkipBlank(s) && NoParens(blank)
  {
    if s != "" && IsBlank(s[0]) {
      var more := SkipBlankSplits(s[1..]);
      Glue("", s[0], more, SkipBlank(s[1..]));
      blank := "" + [s[0]] + more;
    } else {
      blank := "";
    }
  }

  /** An unquoted value is what stands there up to a parenthesis or blank space. */
  lemma {:induction false} SimpleEndSplits(s: string) returns (text: string)
    ensures s == text + SimpleEnd(s) && NoParens(text)
    ensures SimpleEnd(s) == "" || IsBlank(SimpleEnd(s)[0]) || IsParen(SimpleEnd(s)[0])
    decreases |s|
  {
    var after := SkipBlank(s);
    if after == "" || IsParen(after[0]) {
      text := "";
    } else {
      var blank := SkipBlankSplits(s);
      var inner := SimpleEndSplits(after[1..]);
      GlueAfter(s, blank, after, inner, SimpleEnd(after[1..]));
      text := blank + [after[0]] + inner;
    }
  }

  lemma SimpleTailSplits(s: string) returns (text: string)
    ensures s == text + SimpleTail(s) && NoParens(text)
    ensures SimpleTail(s) == "" || IsBlank(SimpleTail(s)[0]) || IsParen(SimpleTail(s)[0])
  {
    var after := SkipBlank(s);
    var blank := SkipBlankSplits(s);
    if after == "" || IsParen(after[0]) {
      text := blank;
    } else {
      var inner := SimpleEndSplits(after[1..]);
      GlueAfter(s, blank, after, inner, SimpleEnd(after[1..]));
      text := blank + [after[0]] + inner;
    }
  }

  lemma ReadSimpleSplits(s: string)
    requires ReadSimple(s).Some?
    ensures var (text, rest) := ReadSimple(s).value;
            && s == text + rest && text != "" && NoParens(text)
            && (rest == "" || IsBlank(rest[0]) || IsParen(rest[0]))
  {
    var inner := SimpleTailSplits(s[1..]);
    HeadAndRest(s, inner, SimpleTail(s[1..]));
  }

  lemma HeadAndRest(s: string, inner: string, rest: string)
    requires s != "" && !IsParen(s[0]) && s[1..] == inner + rest && NoParens(inner)
    ensures var text := s[..|s| - |rest|]; s == text + rest && text != "" && NoParens(text)
  {
    var text := s[..|s| - |rest|];
    assert forall i | 0 <= i < |inner| :: text[i + 1] == s[1..][i] == inner[i];
    forall i | 0 <= i < |text|
      ensures !IsParen(text[i])
    {
      if i > 0 {
        assert text[i] == inner[i - 1];
      }
    }
  }

  /** In a fine region, an unquoted value breaks at a quote or not at all. */
  lemma {:induction false} FineBreaksAtQuote(text: string, rest: string)
    requires RegionFine(text + rest) && NoParens(text)
    requires rest == "" || IsBlank(rest[0]) || IsParen(rest[0])
    ensures IsChars(text) || BreaksAtQuote(text)
    decreases |text|
  {
    if text != "" && text[0] != '"' {
      var n := CharLen(text + rest);
      assert (text + rest)[0] == text[0];
      CharLenWithin(text, rest);
      assert (text + rest)[n..] == text[n..] + rest;
      FineBreaksAtQuote(text[n..], rest);
    }
  }

  lemma CharLenWithin(text: string, rest: string)
    requires text != "" && CharLen(text + rest) > 0
    requires rest == "" || IsBlank(rest[0]) || IsParen(rest[0])
    ensures CharLen(text) == CharLen(text + rest) <= |text|
  {
    var s := text + rest;
    assert forall i | 0 <= i < |text| :: s[i] == text[i];
    assert forall i | |text| <= i < |s| :: s[i] == rest[i - |text|];
  }

  lemma {:induction false} TakeCharsIsChars(s: string)
    ensures IsChars(TakeChars(s).0)
    decreases |s|
  {
    var n := CharLen(s);
    if n > 0 {
      TakeCharsIsChars(s[n..]);
      var text := TakeChars(s).0;
      assert text[..n] == s[..n] && text[n..] == TakeChars(s[n..]).0;
      assert forall i | 0 <= i < n :: text[i] == s[i];
      assert CharLen(text) == n;
    }
  }

  lemma QuotedFine(s: string)
    requires RegionsFine(s) && ReadQuoted(s).Some?
    ensures RegionsFine(ReadQuoted(s).value.1)
  {
    var (text, rest) := TakeChars(s[1..]);
    assert s[1..] == text + rest;
    RegionsFineAfter(text, rest);
  }

  /** Values come out of the reader as quotes allow, or without parentheses. */
  lemma ReadValueShape(s: string, v: Values)
    requires v != Quotable && (v == Tame ==> RegionFine(s) && RegionsFine(s))
    requires ReadValue(s).Some?
    ensures Shape(ReadValue(s).value.0, v)
    ensures v == Tame ==> RegionsFine(ReadValue(s).value.1)
  {
    if ReadQuoted(s).Some? {
      TakeCharsIsChars(s[1..]);
      if v == Tame {
        QuotedFine(s);
      }
    } else {
      ReadSimpleSplits(s);
      var (text, rest) := ReadSimple(s).value;
      if v == Tame {
        FineBreaksAtQuote(text, rest);
        RegionsFineAfter(text, rest);
      }
    }
  }

  lemma {:induction false} ReadSexprShape(s: string, v: Values)
    requires v != Quotable && (v == Tame ==> RegionsFine(s))
    requires ReadSexpr(s).Some?
    ensures Shape(Built(ReadSexpr(s).value.0), v)
    ensures v == Tame ==> RegionsFine(ReadSexpr(s).value.1)
    decreases |s|, 0
  {
    var body := SkipBlank(s[1..]);
    if v == Tame {
      RegionFineSkips(s[1..]);
      SkipBlankAfter(s[1..]);
    }
    ReadTermShape(body, v);
    var tail := ReadTerm(body).1;
    if v == Tame {
      SkipBlankAfter(tail);
    }
  }

  lemma {:induction false} ReadTermShape(s: string, v: Values)
    requires v != Quotable && (v == Tame ==> RegionFine(s) && RegionsFine(s))
    ensures Shape(Built(ReadTerm(s).0), v)
    ensures v == Tame ==> RegionsFine(ReadTerm(s).1)
    decreases |s|, 4
  {
    if ReadObject(s).Some? {
      ReadObjectShape(s, v);
    } else if ReadItems(s).Some? {
      ReadItemsShape(s, v);
    } else if ReadValue(s).Some? {
      ReadValueShape(s, v);
    } else {
      assert TakeChars("").1 == "";
    }
  }

  lemma {:induction false} ReadObjectShape(s: string, v: Values)
    requires v != Quotable && (v == Tame ==> RegionsFine(s))
    requires ReadObject(s).Some?
    ensures Shape(ReadObject(s).value.0, v)
    ensures v == Tame ==> RegionsFine(ReadObject(s).value.1)
    decreases |s|, 3
  {
    var (name, rest) := TakeWord(s);
    if v == Tame {
      RegionsFineAfter(name, rest);
      SkipBlankAfter(rest);
    }
    ReadFieldsShape(SkipBlank(rest), v);
    var fields := ReadFields(SkipBlank(rest)).value.0;
    CollectKeeps(fields);
    AllFieldsShape(fields, Collect(fields), v);
  }

  /** Fields picked from fields of a shape have that shape. */
  lemma {:induction false} AllFieldsShape(fields: seq<Field>, picked: seq<Field>, v: Values)
    requires FieldsShape(fields, v) && forall i | 0 <= i < |picked| :: picked[i] in fields
    ensures FieldsShape(picked, v)
    decreases |picked|
  {
    if picked != [] {
      assert picked[0] in fields;
      FieldShapeAt(fields, picked[0], v);
      AllFieldsShape(fields, picked[1..], v);
    }
  }

  lemma {:induction false} FieldShapeAt(fields: seq<Field>, f: Field, v: Values)
    requires FieldsShape(fields, v) && f in fields
    ensures IsIdent(f.key) && Shape(f.value, v)
    decreases |fields|
  {
    if f != fields[0] {
      assert fields == [fields[0]] + fields[1..];
      FieldShapeAt(fields[1..], f, v);
    }
  }

  lemma {:induction false} ReadFieldsShape(s: string, v: Values)
    requires v != Quotable && (v == Tame ==> RegionsFine(s))
    requires ReadFields(s).Some?
    ensures ReadFields(s).value.0 != [] && FieldsShape(ReadFields(s).value.0, v)
    ensures v == Tame ==> RegionsFine(ReadFields(s).value.1)
    decreases |s|, 2
  {
    ReadFieldShape(s, v);
    var (field, rest) := ReadField(s).value;
    if v == Tame {
      SkipBlankAfter(rest);
    }
    var more := ReadFields(SkipBlank(rest));
    if more.Some? {
      ReadFieldsShape(SkipBlank(rest), v);
      assert ([field] + more.value.0)[1..] == more.value.0;
    } else {
      assert [field][1..] == [];
    }
  }

  lemma {:induction false} ReadFieldShape(s: string, v: Values)
    requires v != Quotable && (v == Tame ==> RegionsFine(s))
    requires ReadField(s).Some?
    ensures IsIdent(ReadField(s).value.0.key) && Shape(ReadField(s).value.0.value, v)
    ensures v == Tame ==> RegionsFine(ReadField(s).value.1)
    decreases |s|, 1
  {
    var (key, rest) := TakeWord(s[1..]);
    if v == Tame {
      RegionsFineAfter(key, rest);
      SkipBlankAfter(rest);
    }
    ReadSexprShape(SkipBlank(rest), v);
  }

  lemma {:induction false} ReadItemsShape(s: string, v: Values)
    requires v != Quotable && (v == Tame ==> RegionsFine(s))
    requires ReadItems(s).Some?
    ensures ReadItems(s).value.0 != [] && ItemsShape(ReadItems(s).value.0, v)
    ensures v == Tame ==> RegionsFine(ReadItems(s).value.1)
    decreases |s|, 2
  {
    if v == Tame {
      SkipBlankAfter(s[1..]);
    }
    var first := SkipBlank(s[1..]);
    ReadSexprShape(first, v);
    var (term, rest) := ReadSexpr(first).value;
    if v == Tame {
      SkipBlankAfter(rest);
    }
    var more := ReadItems(SkipBlank(rest));
    if more.Some? {
      ReadItemsShape(SkipBlank(rest), v);
      assert ([Built(term)] + more.value.0)[1..] == more.value.0;
    } else {
      assert [Built(term)][1..] == [];
    }
  }

  // ----- Printed text -----

  /** Nothing that could open, close or break anything. */
  predicate PlainText(p: string) {
    forall i | 0 <= i < |p| :: !IsParen(p[i]) && p[i] != '"' && p[i] != '\\'
  }

  lemma {:induction false} PlainFine(p: string, x: string)
    requires PlainText(p)
    ensures RegionsFine(x) ==> RegionsFine(p + x)
    ensures RegionFine(x) ==> RegionFine(p + x)
  {
    if p == "" {
      assert p + x == x;
    } else {
      assert (p + x)[1..] == p[1..] + x;
      PlainFine(p[1..], x);
    }
  }

  lemma {:induction false} NoParensFine(p: string, x: string)
    requires NoParens(p) && RegionsFine(x)
    ensures RegionsFine(p + x)
  {
    if p == "" {
      assert p + x == x;
    } else {
      assert (p + x)[1..] == p[1..] + x;
      NoParensFine(p[1..], x);
    }
  }

  /** Quoted text hides no backslash: behind any parenthesis in it, the next break is the closing quote. */
  lemma {:induction false} CharsFine(text: string, x: string)
    requires IsChars(text) && x != "" && x[0] == '"' && RegionsFine(x)
    ensures RegionsFine(text + x) && RegionFine(text + x)
    decreases |text|
  {
    if text == "" {
      assert text + x == x;
    } else {
      var n := CharLen(text);
      FirstChar(text, x);
      CharsFine(text[n..], x);
      CharFine(text[..n], text[n..] + x);
    }
  }

  lemma FirstChar(text: string, x: string)
    requires IsChars(text) && text != ""
    ensures var n := CharLen(text);
            && n > 0 && CharLen(text + x) == n && IsChars(text[n..]) && (n == 1 || NoParens(text[..n]))
            && text + x == text[..n] + (text[n..] + x) && (text + x)[n..] == text[n..] + x
  {
    CharLenStays(text, x);
    SplitAt(text, CharLen(text), x);
  }

  lemma CharLenStays(text: string, x: string)
    requires CharLen(text) > 0
    ensures CharLen(text + x) == CharLen(text)
    ensures CharLen(text) == 1 || NoParens(text[..CharLen(text)])
  {
    assert forall i | 0 <= i < |text| :: (text + x)[i] == text[i];
  }

  lemma SplitAt(text: string, n: nat, x: string)
    requires n <= |text|
    ensures text + x == text[..n] + (text[n..] + x) && (text + x)[n..] == text[n..] + x
    ensures (text + x)[..n] == text[..n] && text[..n] + text[n..] == text
  {
  }

  lemma CharFine(c: string, y: string)
    requires |c| == 1 || NoParens(c)
    requires RegionsFine(y) && RegionFine(y)
    ensures RegionsFine(c + y)
  {
    if |c| == 1 {
      assert (c + y)[1..] == y;
    } else {
      NoParensFine(c, y);
    }
  }

  lemma ValueFine(text: string, rest: string)
    requires Allows(Readable, text) && RegionsFine(rest)
    ensures RegionsFine(FormatValue(text) + rest)
  {
    ValueText(text, rest);
    assert RegionsFine(")" + rest) by { assert (")" + rest)[1..] == rest; }
    if IsWord(text) {
      PlainFine(text, ")" + rest);
      OpenFine(text + (")" + rest));
    } else {
      var end := "\"" + (")" + rest);
      assert end[1..] == ")" + rest;
      if IsChars(text) {
        CharsFine(text, end);
      } else {
        NoParensFine(text, end);
      }
      assert ("\"" + (text + end))[1..] == text + end;
      OpenFine("\"" + (text + end));
    }
  }

  lemma OpenFine(body: string)
    requires RegionFine(body) && RegionsFine(body)
    ensures RegionsFine("(" + body)
  {
    assert ("(" + body)[1..] == body;
  }

  /** The start of a line, before the expression on it. */
  lemma LineFine(level: nat, key: string, x: string)
    requires IsWord(key) && x != "" && x[0] == '(' && RegionsFine(x)
    ensures var line := "\n" + (Indent(level) + (":" + (key + (" " + x)))); RegionsFine(line) && RegionFine(line)
    ensures var line := "\n" + (Indent(level) + (":" + (" " + x))); RegionsFine(line) && RegionFine(line)
  {
    PlainFine(" ", x);
    PlainFine(key, " " + x);
    PlainFine(":", key + (" " + x));
    PlainFine(":", " " + x);
    PlainFine(Indent(level), ":" + (key + (" " + x)));
    PlainFine(Indent(level), ":" + (" " + x));
    PlainFine("\n", Indent(level) + (":" + (key + (" " + x))));
    PlainFine("\n", Indent(level) + (":" + (" " + x)));
  }

  lemma {:induction false} PrintFine(e: Sexpr, level: nat, rest: string)
    requires Shape(e, Readable) && RegionsFine(rest)
    ensures EncodeWithLevel(e, level).Some? && RegionsFine(EncodeWithLevel(e, level).value + rest)
    decreases e, 1
  {
    assert (")" + rest)[1..] == rest;
    match e
    case Value(text) => ValueFine(text, rest);
    case Object(name, fields) =>
      FirstFieldShape(fields, Readable);
      ObjectText(name, fields, level, rest);
      FieldLinesFine(fields, level, ")" + rest);
      var after := Lines(FieldLines(fields, level)) + (")" + rest);
      PlainFine(OpenWord(name), after);
      OpenFine(OpenWord(name) + after);
    case Array(items) =>
      assert Shape(items[0], Readable);
      ArrayText(items, level, rest);
      ItemLinesFine(items, level, ")" + rest);
      OpenFine(Lines(ItemLines(items, level)) + (")" + rest));
  }

  lemma {:induction false} FieldLinesFine(fields: seq<Field>, level: nat, rest: string)
    requires FieldsShape(fields, Readable) && rest != "" && rest[0] == ')' && RegionsFine(rest)
    ensures var text := Lines(FieldLines(fields, level)) + rest; RegionsFine(text) && RegionFine(text)
    decreases fields, 0
  {
    if fields == [] {
      assert Lines(FieldLines(fields, level)) + rest == rest;
    } else {
      var tail := Lines(FieldLines(fields[1..], level)) + rest;
      FieldLinesFine(fields[1..], level, rest);
      PrintFine(fields[0].value, level + 1, tail);
      TextStarts(fields[0].value, level + 1);
      FieldLinesText(fields, level, rest);
      LineFine(level + 1, fields[0].key, EncodeWithLevel(fields[0].value, level + 1).value + tail);
    }
  }

  lemma {:induction false} ItemLinesFine(items: seq<Sexpr>, level: nat, rest: string)
    requires ItemsShape(items, Readable) && rest != "" && rest[0] == ')' && RegionsFine(rest)
    ensures var text := Lines(ItemLines(items, level)) + rest; RegionsFine(text) && RegionFine(text)
    decreases items, 0
  {
    if items == [] {
      assert Lines(ItemLines(items, level)) + rest == rest;
    } else {
      var tail := Lines(ItemLines(items[1..], level)) + rest;
      ItemLinesFine(items[1..], level, rest);
      PrintFine(items[0], level + 1, tail);
      TextStarts(items[0], level + 1);
      ItemLinesText(items, level, rest);
      LineFine(level + 1, "", EncodeWithLevel(items[0], level + 1).value + tail);
    }
  }

  // ----- The first value that cannot be quoted stops the reader -----

  lemma {:induction false} SkipBlankFindsQuote(p: string, x: string)
    requires NoParens(p) && x != "" && x[0] == '"'
    ensures SkipBlank(p + x) != "" && SkipBlank(p + x)[0] != ')'
  {
    if p == "" {
      assert p + x == x;
    } else if IsBlank(p[0]) {
      assert (p + x)[1..] == p[1..] + x;
      SkipBlankFindsQuote(p[1..], x);
    } else {
      assert (p + x)[0] == p[0];
    }
  }

  /** A value that breaks at a quote: the quoted text ends there, and no parenthesis follows. */
  lemma TameValueFails(text: string, rest: string)
    requires NoParens(text) && BreaksAtQuote(text) && !IsChars(text)
    ensures ReadSexpr(FormatValue(text) + rest) == None
  {
    if IsWord(text) {
      WordIsChars(text);
    }
    ValueText(text, rest);
    var (chars, left) := TakeChars(text);
    var end := "\"" + (")" + rest);
    var body := "\"" + (text + end);
    QuoteOpensValue(body);
    QuotedEndsEarly(text, end);
    SkipBlankFindsQuote(left[1..], end);
    ReadSexprFails(body, Some(Value(chars)), left[1..] + end);
  }

  lemma QuotedEndsEarly(text: string, end: string)
    requires NoParens(text) && BreaksAtQuote(text) && end != "" && end[0] == '"'
    ensures var (chars, left) := TakeChars(text);
            ReadQuoted("\"" + (text + end)) == Some((chars, left[1..] + end)) && NoParens(left[1..])
  {
    var (chars, left) := TakeChars(text);
    assert ("\"" + (text + end))[1..] == text + end;
    TakeCharsAppend(text, end);
    LeftOver(chars, left, end);
  }

  lemma LeftOver(chars: string, left: string, end: string)
    requires left != "" && NoParens(chars + left)
    ensures (left + end)[1..] == left[1..] + end && (left + end)[0] == left[0] && NoParens(left[1..])
  {
    assert forall i | 0 <= i < |left| :: left[i] == (chars + left)[|chars| + i];
  }

  /** The printed text of an expression with such a value cannot be read at all. */
  lemma {:induction false} TameFails(e: Sexpr, level: nat, rest: string)
    requires Shape(e, Tame) && !Printable(e)
    ensures EncodeWithLevel(e, level).Some? && ReadSexpr(EncodeWithLevel(e, level).value + rest) == None
    decreases e, 1
  {
    match e
    case Value(text) => TameValueFails(text, rest);
    case Object(name, fields) =>
      TameFieldsStop(fields, level, ")" + rest);
      TameObjectFails(name, fields, level, rest);
    case Array(items) =>
      assert Shape(items[0], Tame);
      TameItemsStop(items, level, ")" + rest);
      TameArrayFails(items, level, rest);
  }

  /** Where the fields end is a colon, not a parenthesis. */
  predicate StopsAtColon(rest: string) {
    SkipBlank(rest) != "" && SkipBlank(rest)[0] == ':'
  }

  lemma {:induction false} TameFieldsStop(fields: seq<Field>, level: nat, rest: string)
    requires FieldsShape(fields, Tame) && !FieldsShape(fields, Quotable)
    ensures var read := ReadFields(SkipBlank(Lines(FieldLines(fields, level)) + rest));
            read.Some? ==> StopsAtColon(read.value.1)
    decreases fields, 0
  {
    var key, value := fields[0].key, fields[0].value;
    var tail := Lines(FieldLines(fields[1..], level)) + rest;
    TextStarts(value, level + 1);
    var text := EncodeWithLevel(value, level + 1).value;
    FieldLinesText(fields, level, rest);
    SkipLineStart(level + 1, ":" + (key + (" " + (text + tail))));
    ReadFieldStep(key, text, tail);
    if Printable(value) {
      ReadsPrinted(value, level + 1, tail);
      TameFieldsStop(fields[1..], level, rest);
      FirstFieldShape(fields[1..], Tame);
      ObjectOpens(fields[1..], level, rest);
    } else {
      TameFails(value, level + 1, tail);
    }
  }

  lemma {:induction false} TameItemsStop(items: seq<Sexpr>, level: nat, rest: string)
    requires ItemsShape(items, Tame) && !ItemsShape(items, Quotable)
    ensures var read := ReadItems(SkipBlank(Lines(ItemLines(items, level)) + rest));
            read.Some? ==> StopsAtColon(read.value.1)
    decreases items, 0
  {
    var tail := Lines(ItemLines(items[1..], level)) + rest;
    TextStarts(items[0], level + 1);
    var text := EncodeWithLevel(items[0], level + 1).value;
    ItemLinesText(items, level, rest);
    SkipLineStart(level + 1, ":" + (" " + (text + tail)));
    ReadItemStep(text, tail);
    if Printable(items[0]) {
      ReadsPrinted(items[0], level + 1, tail);
      TameItemsStop(items[1..], level, rest);
      assert Shape(items[1..][0], Tame);
      ItemLinesText(items[1..], level, rest);
      SkipLineStart(level + 1, ":" + (" " + (EncodeWithLevel(items[1..][0], level + 1).value
                                             + (Lines(ItemLines(items[1..][1..], level)) + rest))));
    } else {
      TameFails(items[0], level + 1, tail);
    }
  }

  /** Neither list nor quote: what is left is an unquoted value, and an opening parenthesis stops it. */
  lemma SimpleMeetsOpen(text: string, x: string)
    requires text != "" && NoParens(text) && text[0] != '"' && x != "" && x[0] == '('
    ensures ReadValue(text + x).Some? && SkipBlank(ReadValue(text + x).value.1) == x
  {
    assert (text + x)[0] == text[0];
    ReadSimpleStops(text, x);
  }

  lemma TameObjectFails(name: Option<string>, fields: seq<Field>, level: nat, rest: string)
    requires Shape(Object(name, fields), Tame)
    requires var read := ReadFields(SkipBlank(Lines(FieldLines(fields, level)) + (")" + rest)));
             read.Some? ==> StopsAtColon(read.value.1)
    ensures EncodeWithLevel(Object(name, fields), level).Some?
    ensures ReadSexpr(EncodeWithLevel(Object(name, fields), level).value + rest) == None
  {
    var word := OpenWord(name);
    var after := Lines(FieldLines(fields, level)) + (")" + rest);
    FirstFieldShape(fields, Tame);
    ObjectText(name, fields, level, rest);
    ObjectOpens(fields, level, ")" + rest);
    ReadObjectStep(word, after);
    var s := SkipBlank(word + after);
    if ReadObject(s).Some? {
      ReadSexprFails(word + after, ReadTerm(s).0, ReadTerm(s).1);
    } else {
      ObjectAsValue(word, fields, level, ")" + rest);
      ReadSexprFails(word + after, ReadTerm(s).0, ReadTerm(s).1);
    }
  }

  lemma ObjectAsValue(word: string, fields: seq<Field>, level: nat, rest: string)
    requires IsWord(word) && fields != [] && IsIdent(fields[0].key) && !fields[0].value.Null?
    ensures var s := SkipBlank(word + (Lines(FieldLines(fields, level)) + rest));
            && ReadItems(s).None? && ReadValue(s).Some?
            && SkipBlank(ReadValue(s).value.1) != "" && SkipBlank(ReadValue(s).value.1)[0] == '('
  {
    var key := fields[0].key;
    TextStarts(fields[0].value, level + 1);
    var x := EncodeWithLevel(fields[0].value, level + 1).value + (Lines(FieldLines(fields[1..], level)) + rest);
    FieldLinesText(fields, level, rest);
    var line := ":" + (key + (" " + x));
    SkipLineStart(level + 1, line);
    if word == "" {
      assert word + (Lines(FieldLines(fields, level)) + rest) == Lines(FieldLines(fields, level)) + rest;
      FieldAsValue(key, x);
    } else {
      NameAsValue(word, level + 1, key, x);
    }
  }

  lemma FieldAsValue(key: string, x: string)
    requires IsIdent(key) && x != "" && x[0] == '('
    ensures var s := ":" + (key + (" " + x));
            && ReadItems(s).None? && ReadValue(s).Some? && SkipBlank(ReadValue(s).value.1) == x
  {
    var s := ":" + (key + (" " + x));
    assert s == (":" + key + " ") + x;
    SimpleMeetsOpen(":" + key + " ", x);
    assert s[1..] == key + (" " + x);
    assert SkipBlank(s[1..]) == s[1..];
  }

  lemma NameAsValue(word: string, level: nat, key: string, x: string)
    requires IsIdent(word) && IsIdent(key) && x != "" && x[0] == '('
    ensures var s := SkipBlank(word + ("\n" + (Indent(level) + (":" + (key + (" " + x))))));
            && ReadItems(s).None? && ReadValue(s).Some? && SkipBlank(ReadValue(s).value.1) == x
  {
    var text := word + "\n" + Indent(level) + ":" + key + " ";
    LineGlue(word, Indent(level), key, x);
    assert SkipBlank(text + x) == text + x;
    SimpleMeetsOpen(text, x);
  }

  lemma LineGlue(word: string, indent: string, key: string, x: string)
    requires IsIdent(word) && IsIdent(key) && forall i | 0 <= i < |indent| :: indent[i] == '\t'
    ensures var text := word + "\n" + indent + ":" + key + " ";
            && word + ("\n" + (indent + (":" + (key + (" " + x))))) == text + x
            && NoParens(text) && text[0] == word[0] && (text + x)[0] == word[0]
  {
  }

  lemma TameArrayFails(items: seq<Sexpr>, level: nat, rest: string)
    requires items != [] && !items[0].Null?
    requires var read := ReadItems(SkipBlank(Lines(ItemLines(items, level)) + (")" + rest)));
             read.Some? ==> StopsAtColon(read.value.1)
    ensures ReadSexpr(EncodeWithLevel(Array(items), level).value + rest) == None
  {
    var after := Lines(ItemLines(items, level)) + (")" + rest);
    ArrayText(items, level, rest);
    ArrayOpens(items, level, ")" + rest);
    var s := SkipBlank(after);
    ArrayAsValue(items, level, ")" + rest);
    ReadSexprFails(after, ReadTerm(s).0, ReadTerm(s).1);
  }

  lemma ArrayAsValue(items: seq<Sexpr>, level: nat, rest: string)
    requires items != [] && !items[0].Null?
    ensures var s := SkipBlank(Lines(ItemLines(items, level)) + rest);
            && ReadValue(s).Some?
            && SkipBlank(ReadValue(s).value.1) != "" && SkipBlank(ReadValue(s).value.1)[0] == '('
  {
    TextStarts(items[0], level + 1);
    var x := EncodeWithLevel(items[0], level + 1).value + (Lines(ItemLines(items[1..], level)) + rest);
    ItemLinesText(items, level, rest);
    SkipLineStart(level + 1, ":" + (" " + x));
    assert ":" + (" " + x) == ": " + x;
    SimpleMeetsOpen(": ", x);
  }

  // ----- Exactly what reads back -----

  lemma {:induction false} PaddingFine(padding: string)
    requires IsPadding(padding)
    ensures RegionsFine(padding)
  {
    if padding != "" {
      PaddingFine(padding[1..]);
    }
  }

  /**
   * Printing and parsing gives the expression without its nulls if and only if, nulls aside, names and keys are
   * identifiers, objects and arrays are not empty, and every value can stand in quotes; and it is not the empty value.
   */
  lemma ReadsBackIff(e: Sexpr, padding: string)
    requires IsPadding(padding)
    ensures Parse(ToString(e) + padding) == Some(Strip(e)) <==> ReadsBack(Strip(e))
  {
    if ReadsBack(Strip(e)) {
      ParsesPrinted(e, padding);
    }
    if Parse(ToString(e) + padding) == Some(Strip(e)) {
      ParsedIsPrintable(e, padding);
    }
  }

  lemma ParsedIsPrintable(e: Sexpr, padding: string)
    requires IsPadding(padding) && Parse(ToString(e) + padding) == Some(Strip(e))
    ensures ReadsBack(Strip(e))
  {
    var d, text := Strip(e), ToString(e) + padding;
    PrintIgnoresNulls(e, 0);
    ReadSexprShape(SkipBlank(text), Readable);
    TextStarts(d, 0);
    assert text[0] == '(' && SkipBlank(text) == text;
    PaddingFine(padding);
    PrintFine(d, 0, padding);
    ReadSexprShape(text, Tame);
    if !Printable(d) {
      TameFails(d, 0, padding);
      assert false;
    }
    if d == Value("") {
      EmptyValueAlone(padding);
    }
  }

  lemma EmptyValueAlone(padding: string)
    ensures Parse(FormatValue("") + padding) == None
  {
    ReadsValue("", padding);
    assert SkipBlank(FormatValue("") + padding) == FormatValue("") + padding;
  }

  // ----- What comes back instead -----

  lemma {:induction false} TakeCharsUpTo(text: string, left: string)
    requires IsChars(text) && CharLen(left) == 0
    ensures TakeChars(text + left) == (text, left)
    decreases |text|
  {
    if text == "" {
      assert text + left == left;
    } else {
      FirstChar(text, left);
      SplitAt(text, CharLen(text), left);
      TakeCharsUpTo(text[CharLen(text)..], left);
    }
  }

  /** A backslash before this text is no escape, whatever follows. */
  predicate NoEscape(text: string) {
    && text != "" && text[0] !in {'"', '\\', '/', 'b', 'f', 'n', 'r', 't'}
    && (text[0] == 'u' ==> exists i | 1 <= i <= 4 && i < |text| :: !IsHexDigit(text[i]))
  }

  /** A value with a backslash that is no escape, and without parentheses, comes back with the quotes around it. */
  lemma BackslashGainsQuotes(before: string, after: string, rest: string)
    requires IsChars(before) && NoParens(before) && NoParens(after) && NoEscape(after)
    ensures var text := before + ("\\" + after);
            ReadSexpr(FormatValue(text) + rest) == Some((Some(Value("\"" + text + "\"")), rest))
  {
    var text := before + ("\\" + after);
    assert text[|before|] == '\\';
    ValueText(text, rest);
    StuckAtBackslash(before, after, "\"" + (")" + rest));
    QuotesKept(text, rest);
  }

  lemma QuotesKept(text: string, rest: string)
    requires NoParens(text) && ReadQuoted("\"" + (text + ("\"" + (")" + rest)))).None?
    ensures ReadSexpr("(" + ("\"" + (text + ("\"" + (")" + rest))))) == Some((Some(Value("\"" + text + "\"")), rest))
  {
    var end := ")" + rest;
    var body := "\"" + (text + ("\"" + end));
    SimpleWithQuotes(text, end);
    assert SkipBlank(end) == end;
    ReadSexprEnds(body, Some(Value("\"" + text + "\"")), end, rest);
  }

  lemma SimpleWithQuotes(text: string, end: string)
    requires NoParens(text) && end != "" && IsParen(end[0]) && ReadQuoted("\"" + (text + ("\"" + end))).None?
    ensures var body := "\"" + (text + ("\"" + end));
            ReadTerm(SkipBlank(body)) == (Some(Value("\"" + text + "\"")), end)
  {
    QuoteOpensValue("\"" + (text + ("\"" + end)));
    QuotesGlue(text, end);
    ReadSimpleStops("\"" + text + "\"", end);
  }

  lemma QuotesGlue(text: string, end: string)
    requires NoParens(text)
    ensures "\"" + (text + ("\"" + end)) == ("\"" + text + "\"") + end
    ensures var quoted := "\"" + text + "\""; NoParens(quoted) && !IsBlank(quoted[|quoted| - 1])
  {
  }

  lemma StuckAtBackslash(before: string, after: string, end: string)
    requires IsChars(before) && NoEscape(after)
    ensures ReadQuoted("\"" + ((before + ("\\" + after)) + end)).None?
  {
    var left := "\\" + after + end;
    var s := "\"" + ((before + ("\\" + after)) + end);
    assert s[1..] == before + left;
    assert left[1..] == after + end;
    assert forall i | 0 <= i < |after| :: left[i + 1] == after[i];
    TakeCharsUpTo(before, left);
  }

  lemma ParsesTo(text: string, term: Option<Sexpr>)
    requires text != "" && text[0] == '(' && ReadSexpr(text + "") == Some((term, ""))
    ensures Parse(text) == term
  {
    assert text + "" == text && SkipBlank(text) == text;
  }

  /** A Windows user name is such a value, unless its user part starts like an escape. */
  lemma DomainUserGainsQuotes(domain: string, user: string)
    requires IsWord(domain) && IsWord(user) && NoEscape(user)
    ensures var name := domain + ("\\" + user); Parse(ToString(Value(name))) == Some(Value("\"" + name + "\""))
  {
    WordIsChars(domain);
    BackslashGainsQuotes(domain, user, "");
    TextStarts(Value(domain + ("\\" + user)), 0);
    ParsesTo(ToString(Value(domain + ("\\" + user))), Some(Value("\"" + (domain + ("\\" + user)) + "\"")));
  }

  lemma DomainUser()
    ensures Parse(ToString(Value("DOMAIN" + "\\user"))) == Some(Value("\"" + ("DOMAIN" + "\\user") + "\""))
  {
    assert NoEscape("user") by { assert !IsHexDigit("user"[1]); }
    assert "\\" + "user" == "\\user";
    DomainUserGainsQuotes("DOMAIN", "user");
  }

  lemma NothingInside(end: string)
    requires end != "" && end[0] == ')'
    ensures SkipBlank("\n" + end) == end && SkipBlank(end) == end && ReadTerm(end) == (None, end)
  {
    assert ("\n" + end)[1..] == end;
    assert TakeWord(end) == ("", end) && ReadFields(end).None?;
  }

  lemma BlankParensText(rest: string)
    ensures "(\n)" + rest == "(" + ("\n" + (")" + rest))
  {
  }

  lemma BlankParens(rest: string)
    ensures ReadSexpr("(\n)" + rest) == Some((None, rest))
  {
    var end := ")" + rest;
    NothingInside(end);
    ReadSexprEnds("\n" + end, None, end, rest);
    BlankParensText(rest);
  }

  lemma EmptyArrayText(level: nat)
    ensures EncodeWithLevel(Array([]), level) == Some("(\n)")
  {
    assert "(\n" + "" + ")" == "(\n)";
  }

  lemma EmptyArrayField(key: string, level: nat, rest: string)
    requires IsIdent(key)
    ensures ReadFields(SkipBlank(Lines(FieldLines([Field(key, Array([]))], level)) + (")" + rest)))
            == Some(([Field(key, Value(""))], ")" + rest))
  {
    var fields := [Field(key, Array([]))];
    var end := ")" + rest;
    assert fields[1..] == [];
    FieldLinesText(fields, level, end);
    EmptyArrayText(level + 1);
    assert Lines(FieldLines(fields[1..], level)) + end == end;
    SkipLineStart(level + 1, ":" + (key + (" " + ("(\n)" + end))));
    BlankParens(end);
    LastField(key, "(\n)", None, end);
  }

  lemma LastField(key: string, text: string, term: Option<Sexpr>, end: string)
    requires IsIdent(key) && text != "" && text[0] == '(' && end != "" && end[0] == ')'
    requires ReadSexpr(text + end) == Some((term, end))
    ensures ReadFields(":" + (key + (" " + (text + end)))) == Some(([Field(key, Built(term))], end))
  {
    ReadFieldStep(key, text, end);
    NothingInside(end);
    assert ReadFields(end).None?;
  }

  /** An array without items prints as blank parentheses and comes back as the empty value of its field. */
  lemma EmptyArrayReadsAsValue(name: Option<string>, key: string)
    requires (name.Some? ==> IsIdent(name.value)) && IsIdent(key)
    ensures Parse(ToString(Object(name, [Field(key, Array([]))]))) == Some(Object(name, [Field(key, Value(""))]))
  {
    var fields, read := [Field(key, Array([]))], Object(name, [Field(key, Value(""))]);
    var after := Lines(FieldLines(fields, 0)) + (")" + "");
    ObjectText(name, fields, 0, "");
    ObjectOpens(fields, 0, ")" + "");
    EmptyArrayField(key, 0, "");
    ReadObjectStep(OpenWord(name), after);
    CollectAscending([Field(key, Value(""))]);
    NothingInside(")" + "");
    ReadSexprEnds(OpenWord(name) + after, Some(read), ")" + "", "");
    TextStarts(Object(name, fields), 0);
    ParsesTo(ToString(Object(name, fields)), Some(read));
  }
}
