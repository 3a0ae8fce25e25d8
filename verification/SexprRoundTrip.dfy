/** What of the printed S-expressions can be read back (crates/snxcore/src/sexpr.rs, crates/snxcore/src/sexpr.pest). */
module SexprRoundTrip {
  import opened Sexprs
  import opened SexprReader
  import opened Text
  import opened Wrappers

  // ----- Expressions that can be read back -----

  /** Text that can stand in quotes: no bare quote, and every backslash belongs to an escape. */
  predicate IsChars(text: string) {
    TakeChars(text).1 == ""
  }

  predicate NoParens(text: string) {
    forall i | 0 <= i < |text| :: !IsParen(text[i])
  }

  /** The first thing that keeps the text out of quotes is a quote, not a backslash. */
  predicate BreaksAtQuote(text: string) {
    TakeChars(text).1 != "" && TakeChars(text).1[0] == '"'
  }

  /** Which values are allowed: those that quotes can hold, or also certain others without parentheses. */
  datatype Values = Quotable | Tame | Readable

  predicate Allows(v: Values, text: string) {
    IsChars(text) || (v != Quotable && NoParens(text) && (v == Tame ==> BreaksAtQuote(text)))
  }

  /** Names and keys are identifiers, objects and arrays are not empty, keys ascend, and values are allowed. */
  predicate Shape(e: Sexpr, v: Values)
    decreases e, 1
  {
    match e
    case Null => false
    case Value(text) => Allows(v, text)
    case Object(name, fields) =>
      (name.Some? ==> IsIdent(name.value)) && fields != [] && Ascending(fields) && FieldsShape(fields, v)
    case Array(items) => items != [] && ItemsShape(items, v)
  }

  predicate FieldsShape(fields: seq<Field>, v: Values)
    decreases fields, 0
  {
    fields == [] || (IsIdent(fields[0].key) && Shape(fields[0].value, v) && FieldsShape(fields[1..], v))
  }

  predicate ItemsShape(items: seq<Sexpr>, v: Values)
    decreases items, 0
  {
    items == [] || (Shape(items[0], v) && ItemsShape(items[1..], v))
  }

  predicate Printable(e: Sexpr) {
    Shape(e, Quotable)
  }

  /** Alone, without an expression around it, the empty value is not an expression. */
  predicate ReadsBack(e: Sexpr) {
    Printable(e) && e != Value("")
  }

  /** What the grammar finds between the parentheses of a printed expression. */
  function TermOf(e: Sexpr): Option<Sexpr> {
    if e == Value("") then None else Some(e)
  }

  // ----- Tokens -----

  lemma {:induction false} SkipIndent(level: nat, rest: string)
    ensures SkipBlank(Indent(level) + rest) == SkipBlank(rest)
  {
    if level == 0 {
      assert Indent(0) + rest == rest;
    } else {
      assert (Indent(level) + rest)[1..] == Indent(level - 1) + rest;
      SkipIndent(level - 1, rest);
    }
  }

  lemma {:induction false} TakeWordExact(word: string, rest: string)
    requires IsWord(word) && (rest == "" || !IsWordChar(rest[0]))
    ensures TakeWord(word + rest) == (word, rest)
  {
    if word == "" {
      assert word + rest == rest;
    } else {
      assert (word + rest)[1..] == word[1..] + rest;
      TakeWordExact(word[1..], rest);
      assert word == [word[0]] + word[1..];
    }
  }

  /** Where a text breaks does not depend on what follows it, as long as that starts with a quote. */
  lemma {:induction false} TakeCharsAppend(text: string, rest: string)
    requires IsChars(text) || BreaksAtQuote(text)
    requires rest != "" && rest[0] == '"'
    ensures TakeChars(text + rest) == (TakeChars(text).0, TakeChars(text).1 + rest)
    decreases |text|
  {
    var n := CharLen(text);
    if text == "" {
      assert text + rest == rest;
    } else if n > 0 {
      assert CharLen(text + rest) == n;
      assert (text + rest)[n..] == text[n..] + rest && (text + rest)[..n] == text[..n];
      TakeCharsAppend(text[n..], rest);
    } else {
      assert (text + rest)[0] == text[0];
    }
  }

  lemma {:induction false} WordIsChars(text: string)
    requires IsWord(text)
    ensures IsChars(text)
  {
    if text != "" {
      WordIsChars(text[1..]);
    }
  }

  lemma ParenStays(rest: string)
    requires rest != "" && IsParen(rest[0])
    ensures SkipBlank(rest) == rest && SimpleEnd(rest) == rest
  {
  }

  /** Past a run of characters without parentheses, only blank space is left before the parenthesis. */
  lemma {:induction false} SimpleEndStops(text: string, rest: string)
    requires NoParens(text) && rest != "" && IsParen(rest[0])
    ensures SkipBlank(SimpleEnd(text + rest)) == rest
    ensures text == "" || !IsBlank(text[|text| - 1]) ==> SimpleEnd(text + rest) == rest
    decreases |text|
  {
    if text == "" {
      assert text + rest == rest;
      ParenStays(rest);
    } else {
      SkipWithin(text, rest);
      var after := SkipBlank(text);
      if after != "" {
        assert (after + rest)[1..] == after[1..] + rest;
        SimpleEndStops(after[1..], rest);
      } else {
        assert SkipBlank(text + rest) == rest;
      }
    }
  }

  lemma {:induction false} SkipWithin(text: string, rest: string)
    requires NoParens(text) && rest != "" && IsParen(rest[0])
    ensures SkipBlank(text + rest) == SkipBlank(text) + rest
    ensures NoParens(SkipBlank(text))
    ensures text != "" && !IsBlank(text[|text| - 1]) ==>
              SkipBlank(text) != "" && SkipBlank(text)[|SkipBlank(text)| - 1] == text[|text| - 1]
  {
    if text == "" {
      assert text + rest == rest;
    } else if IsBlank(text[0]) {
      assert (text + rest)[1..] == text[1..] + rest;
      SkipWithin(text[1..], rest);
    }
  }

  lemma ReadSimpleStops(text: string, rest: string)
    requires text != "" && NoParens(text) && rest != "" && IsParen(rest[0])
    ensures ReadSimple(text + rest).Some? && SkipBlank(ReadSimple(text + rest).value.1) == rest
    ensures !IsBlank(text[|text| - 1]) ==> ReadSimple(text + rest) == Some((text, rest))
  {
    var s := text + rest;
    assert s[1..] == text[1..] + rest;
    SimpleTailStops(text[1..], rest);
    assert s[..|s| - |rest|] == text;
  }

  lemma SimpleTailStops(text: string, rest: string)
    requires NoParens(text) && rest != "" && IsParen(rest[0])
    ensures SkipBlank(SimpleTail(text + rest)) == rest
    ensures text == "" || !IsBlank(text[|text| - 1]) ==> SimpleTail(text + rest) == rest
  {
    SkipWithin(text, rest);
    ParenStays(rest);
    var after := SkipBlank(text);
    if after != "" {
      assert (after + rest)[1..] == after[1..] + rest;
      SimpleEndStops(after[1..], rest);
    } else {
      assert after + rest == rest;
    }
  }

  // ----- Expressions in their parentheses -----

  lemma ReadSexprEnds(body: string, term: Option<Sexpr>, tail: string, rest: string)
    requires ReadTerm(SkipBlank(body)) == (term, tail) && SkipBlank(tail) == ")" + rest
    ensures ReadSexpr("(" + body) == Some((term, rest))
  {
    assert ("(" + body)[1..] == body;
    assert (")" + rest)[1..] == rest;
  }

  lemma ReadSexprFails(body: string, term: Option<Sexpr>, tail: string)
    requires ReadTerm(SkipBlank(body)) == (term, tail)
    requires SkipBlank(tail) == "" || SkipBlank(tail)[0] != ')'
    ensures ReadSexpr("(" + body) == None
  {
    assert ("(" + body)[1..] == body;
  }

  lemma ReadsWordValue(text: string, rest: string)
    requires IsWord(text)
    ensures ReadSexpr("(" + (text + (")" + rest))) == Some((TermOf(Value(text)), rest))
  {
    var end := ")" + rest;
    var body := text + end;
    TakeWordExact(text, end);
    assert SkipBlank(body) == body && SkipBlank(end) == end;
    assert ReadFields(end).None?;
    assert body[0] != ':';
    if text == "" {
      assert body == end;
      ReadSexprEnds(body, None, body, rest);
    } else {
      ReadSimpleStops(text, end);
      ReadSexprEnds(body, Some(Value(text)), end, rest);
    }
  }

  /** A quote opens a value: neither an object nor an array starts with one. */
  lemma QuoteOpensValue(s: string)
    requires s != "" && s[0] == '"'
    ensures SkipBlank(s) == s
    ensures ReadTerm(s) == match ReadValue(s) case Some((e, rest)) => (Some(e), rest) case None => (None, s)
  {
    assert TakeWord(s) == ("", s);
    assert ReadFields(s).None?;
    assert ReadObject(s).None? && ReadItems(s).None?;
  }

  lemma ReadsQuoted(text: string, rest: string)
    requires IsChars(text)
    ensures ReadQuoted("\"" + (text + ("\"" + rest))) == Some((text, rest))
  {
    var s := "\"" + (text + ("\"" + rest));
    assert s[1..] == text + ("\"" + rest);
    TakeCharsAppend(text, "\"" + rest);
    assert ("\"" + rest)[1..] == rest;
    assert TakeChars(text).0 == text;
    assert "" + ("\"" + rest) == "\"" + rest;
  }

  lemma ReadsQuotedValue(text: string, rest: string)
    requires IsChars(text)
    ensures ReadSexpr("(" + ("\"" + (text + ("\"" + (")" + rest))))) == Some((Some(Value(text)), rest))
  {
    var end := ")" + rest;
    var body := "\"" + (text + ("\"" + end));
    QuoteOpensValue(body);
    ReadsQuoted(text, end);
    assert SkipBlank(end) == end;
    ReadSexprEnds(body, Some(Value(text)), end, rest);
  }

  lemma ValueText(text: string, rest: string)
    ensures FormatValue(text) + rest
            == if IsWord(text) then "(" + (text + (")" + rest)) else "(" + ("\"" + (text + ("\"" + (")" + rest))))
  {
  }

  lemma ReadsValue(text: string, rest: string)
    requires IsChars(text)
    ensures ReadSexpr(FormatValue(text) + rest) == Some((TermOf(Value(text)), rest))
  {
    ValueText(text, rest);
    if IsWord(text) {
      ReadsWordValue(text, rest);
    } else {
      ReadsQuotedValue(text, rest);
    }
  }

  // ----- The text of objects and arrays -----

  /** Joined lines, each one written with the newline that precedes it. */
  function Lines(parts: seq<string>): string {
    if parts == [] then "" else "\n" + parts[0] + Lines(parts[1..])
  }

  lemma {:induction false} JoinAsLines(parts: seq<string>)
    requires parts != []
    ensures "\n" + Join(parts, "\n") == Lines(parts)
  {
    if |parts| > 1 {
      JoinAsLines(parts[1..]);
      assert "\n" + Join(parts, "\n") == "\n" + parts[0] + ("\n" + Join(parts[1..], "\n"));
    } else {
      assert parts[1..] == [];
      assert "\n" + parts[0] + "" == "\n" + parts[0];
    }
  }

  /** A printed expression starts with its parenthesis. */
  lemma TextStarts(e: Sexpr, level: nat)
    requires !e.Null?
    ensures EncodeWithLevel(e, level).Some?
    ensures EncodeWithLevel(e, level).value != "" && EncodeWithLevel(e, level).value[0] == '('
  {
  }

  lemma FieldLine(indent: string, key: string, text: string)
    ensures indent + ":" + key + " " + text == indent + (":" + (key + (" " + text)))
  {
  }

  lemma LineTail(indent: string, body: string, tail: string)
    ensures "\n" + (indent + body) + tail == "\n" + (indent + (body + tail))
  {
  }

  lemma FieldTail(key: string, text: string, tail: string)
    ensures ":" + (key + (" " + text)) + tail == ":" + (key + (" " + (text + tail)))
  {
  }

  /** The lines of an object, the first field apart. */
  lemma FieldLinesText(fields: seq<Field>, level: nat, rest: string)
    requires fields != [] && !fields[0].value.Null?
    ensures Lines(FieldLines(fields, level)) + rest
      == "\n" + (Indent(level + 1) + (":" + (fields[0].key + (" " + (EncodeWithLevel(fields[0].value, level + 1).value
                + (Lines(FieldLines(fields[1..], level)) + rest))))))
  {
    TextStarts(fields[0].value, level + 1);
    var key, text := fields[0].key, EncodeWithLevel(fields[0].value, level + 1).value;
    var lines := FieldLines(fields, level);
    var tail := Lines(lines[1..]) + rest;
    assert lines[1..] == FieldLines(fields[1..], level);
    FieldLine(Indent(level + 1), key, text);
    assert Lines(lines) + rest == "\n" + lines[0] + tail;
    LineTail(Indent(level + 1), ":" + (key + (" " + text)), tail);
    FieldTail(key, text, tail);
  }

  lemma ItemLinesText(items: seq<Sexpr>, level: nat, rest: string)
    requires items != [] && !items[0].Null?
    ensures Lines(ItemLines(items, level)) + rest
      == "\n" + (Indent(level + 1) + (":" + (" " + (EncodeWithLevel(items[0], level + 1).value
                + (Lines(ItemLines(items[1..], level)) + rest)))))
  {
    TextStarts(items[0], level + 1);
    var text := EncodeWithLevel(items[0], level + 1).value;
    var lines := ItemLines(items, level);
    var tail := Lines(lines[1..]) + rest;
    assert lines[1..] == ItemLines(items[1..], level);
    assert lines[0] == Indent(level + 1) + (":" + (" " + text));
    assert Lines(lines) + rest == "\n" + lines[0] + tail;
    LineTail(Indent(level + 1), ":" + (" " + text), tail);
    assert ":" + (" " + text) + tail == ":" + (" " + (text + tail));
  }

  lemma SkipLineStart(level: nat, body: string)
    requires body != "" && body[0] == ':'
    ensures SkipBlank("\n" + (Indent(level) + body)) == body
  {
    assert ("\n" + (Indent(level) + body))[1..] == Indent(level) + body;
    SkipIndent(level, body);
  }

  lemma FirstFieldShape(fields: seq<Field>, v: Values)
    requires fields != [] && FieldsShape(fields, v)
    ensures IsIdent(fields[0].key) && Shape(fields[0].value, v) && !fields[0].value.Null?
  {
  }

  lemma FirstItemShape(items: seq<Sexpr>, v: Values)
    requires items != [] && ItemsShape(items, v)
    ensures Shape(items[0], v) && !items[0].Null?
  {
  }

  function OpenWord(name: Option<string>): string {
    if name.Some? then name.value else ""
  }

  lemma AroundLines(word: string, body: string, rest: string)
    ensures "(" + word + "\n" + body + ")" + rest == "(" + (word + (("\n" + body) + (")" + rest)))
  {
  }

  lemma ObjectText(name: Option<string>, fields: seq<Field>, level: nat, rest: string)
    requires fields != [] && !fields[0].value.Null?
    ensures EncodeWithLevel(Object(name, fields), level).value + rest
      == "(" + (OpenWord(name) + (Lines(FieldLines(fields, level)) + (")" + rest)))
  {
    var lines := FieldLines(fields, level);
    var body := Join(lines, "\n");
    assert body != "" by { TextStarts(fields[0].value, level + 1); assert |lines[0]| > 0; }
    JoinAsLines(lines);
    AroundLines(OpenWord(name), body, rest);
  }

  lemma ArrayText(items: seq<Sexpr>, level: nat, rest: string)
    requires items != [] && !items[0].Null?
    ensures EncodeWithLevel(Array(items), level).value + rest == "(" + (Lines(ItemLines(items, level)) + (")" + rest))
  {
    TextStarts(items[0], level + 1);
    var lines := ItemLines(items, level);
    JoinAsLines(lines);
    assert EncodeWithLevel(Array(items), level).value == "(" + ("\n" + Join(lines, "\n")) + ")";
  }

  // ----- How the reader takes them -----

  /** A blank before an expression is skipped, and no more. */
  lemma SkipToExpr(text: string, rest: string)
    requires text != "" && text[0] == '('
    ensures SkipBlank(" " + (text + rest)) == text + rest
  {
    assert (" " + (text + rest))[1..] == text + rest;
  }

  /** One field, whatever its value's text turns out to be. */
  lemma ReadFieldStep(key: string, text: string, tail: string)
    requires IsIdent(key) && text != "" && text[0] == '('
    ensures ReadField(":" + (key + (" " + (text + tail))))
            == var first := ReadSexpr(text + tail);
               if first.None? then None else Some((Field(key, Built(first.value.0)), first.value.1))
  {
    var afterKey := " " + (text + tail);
    assert (":" + (key + afterKey))[1..] == key + afterKey;
    TakeWordExact(key, afterKey);
    SkipToExpr(text, tail);
  }

  lemma ReadItemStep(text: string, tail: string)
    requires text != "" && text[0] == '('
    ensures var first, all := ReadSexpr(text + tail), ReadItems(":" + (" " + (text + tail)));
            && (first.None? ==> all.None?)
            && (first.Some? ==>
                  var item, more := Built(first.value.0), ReadItems(SkipBlank(first.value.1));
                  all == Some(if more.None? then ([item], first.value.1) else ([item] + more.value.0, more.value.1)))
  {
    assert (":" + (" " + (text + tail)))[1..] == " " + (text + tail);
    SkipToExpr(text, tail);
  }

  /** A name, or none, and then the fields decide what an object is. */
  lemma ReadObjectStep(word: string, after: string)
    requires IsWord(word) && after != "" && after[0] == '\n'
    requires SkipBlank(after) != "" && SkipBlank(after)[0] == ':'
    ensures ReadObject(SkipBlank(word + after))
            == var read := ReadFields(SkipBlank(after));
               if read.None? then None
               else Some((Object(if word == "" then None else Some(word), Collect(read.value.0)), read.value.1))
  {
    if word == "" {
      assert word + after == after;
      assert TakeWord(SkipBlank(after)) == ("", SkipBlank(after));
      assert SkipBlank(SkipBlank(after)) == SkipBlank(after);
    } else {
      assert SkipBlank(word + after) == word + after;
      TakeWordExact(word, after);
    }
  }

  /** The reader is a left inverse of the printer, at every indentation and before any further text. */
  lemma {:induction false} ReadsPrinted(e: Sexpr, level: nat, rest: string)
    requires Printable(e)
    ensures EncodeWithLevel(e, level).Some?
    ensures ReadSexpr(EncodeWithLevel(e, level).value + rest) == Some((TermOf(e), rest))
    decreases e, 1
  {
    match e
    case Value(text) => ReadsValue(text, rest);
    case Object(name, fields) =>
      ReadsFields(fields, level, rest);
      ReadsObject(name, fields, level, rest);
    case Array(items) =>
      ReadsItems(items, level, rest);
      assert Shape(items[0], Quotable);
      ReadsArray(items, level, rest);
  }

  lemma {:induction false} ReadsFields(fields: seq<Field>, level: nat, rest: string)
    requires fields != [] && FieldsShape(fields, Quotable)
    ensures ReadFields(SkipBlank(Lines(FieldLines(fields, level)) + (")" + rest))) == Some((fields, ")" + rest))
    decreases fields, 0
  {
    var key, value := fields[0].key, fields[0].value;
    var tail := Lines(FieldLines(fields[1..], level)) + (")" + rest);
    TextStarts(value, level + 1);
    var text := EncodeWithLevel(value, level + 1).value;
    ReadsPrinted(value, level + 1, tail);
    FieldLinesText(fields, level, ")" + rest);
    SkipLineStart(level + 1, ":" + (key + (" " + (text + tail))));
    ReadFieldStep(key, text, tail);
    assert fields == [Field(key, value)] + fields[1..];
    if fields[1..] == [] {
      assert tail == ")" + rest;
      assert SkipBlank(tail) == tail && ReadFields(tail).None?;
      assert fields == [Field(key, value)];
    } else {
      ReadsFields(fields[1..], level, rest);
    }
  }

  lemma ItemsEnd(rest: string)
    ensures SkipBlank(")" + rest) == ")" + rest && ReadItems(")" + rest).None?
  {
  }

  lemma HeadAndTail<T>(s: seq<T>)
    requires s != []
    ensures s == [s[0]] + s[1..]
    ensures s[1..] == [] ==> s == [s[0]]
  {
  }

  lemma BuiltOfTerm(e: Sexpr)
    requires !e.Null?
    ensures Built(TermOf(e)) == e
  {
  }

  lemma NoItemLines(level: nat, rest: string)
    ensures Lines(ItemLines([], level)) + (")" + rest) == ")" + rest
  {
  }

  lemma ReadsFirstItem(items: seq<Sexpr>, level: nat, rest: string)
    requires items != [] && ItemsShape(items, Quotable)
    requires EncodeWithLevel(items[0], level + 1).Some?
    requires var tail := Lines(ItemLines(items[1..], level)) + (")" + rest);
             ReadSexpr(EncodeWithLevel(items[0], level + 1).value + tail) == Some((TermOf(items[0]), tail))
    ensures var tail := Lines(ItemLines(items[1..], level)) + (")" + rest);
            var item, more := Built(TermOf(items[0])), ReadItems(SkipBlank(tail));
            ReadItems(SkipBlank(Lines(ItemLines(items, level)) + (")" + rest)))
            == Some(if more.None? then ([item], tail) else ([item] + more.value.0, more.value.1))
  {
    var tail := Lines(ItemLines(items[1..], level)) + (")" + rest);
    TextStarts(items[0], level + 1);
    var text := EncodeWithLevel(items[0], level + 1).value;
    ItemLinesText(items, level, ")" + rest);
    SkipLineStart(level + 1, ":" + (" " + (text + tail)));
    ReadItemStep(text, tail);
  }

  lemma {:induction false} ReadsItems(items: seq<Sexpr>, level: nat, rest: string)
    requires items != [] && ItemsShape(items, Quotable)
    ensures ReadItems(SkipBlank(Lines(ItemLines(items, level)) + (")" + rest))) == Some((items, ")" + rest))
    decreases items, 0
  {
    var tail := Lines(ItemLines(items[1..], level)) + (")" + rest);
    ReadsPrinted(items[0], level + 1, tail);
    ReadsFirstItem(items, level, rest);
    if items[1..] == [] {
      NoItemLines(level, rest);
      ItemsEnd(rest);
    } else {
      ReadsItems(items[1..], level, rest);
    }
    HeadAndTail(items);
    BuiltOfTerm(items[0]);
  }

  lemma ReadsObject(name: Option<string>, fields: seq<Field>, level: nat, rest: string)
    requires Printable(Object(name, fields))
    requires ReadFields(SkipBlank(Lines(FieldLines(fields, level)) + (")" + rest))) == Some((fields, ")" + rest))
    ensures ReadSexpr(EncodeWithLevel(Object(name, fields), level).value + rest)
         == Some((Some(Object(name, fields)), rest))
  {
    var after := Lines(FieldLines(fields, level)) + (")" + rest);
    FirstFieldShape(fields, Quotable);
    ObjectText(name, fields, level, rest);
    ObjectOpens(fields, level, ")" + rest);
    ReadObjectStep(OpenWord(name), after);
    CollectAscending(fields);
    assert SkipBlank(")" + rest) == ")" + rest;
    ReadSexprEnds(OpenWord(name) + after, Some(Object(name, fields)), ")" + rest, rest);
  }

  lemma ObjectOpens(fields: seq<Field>, level: nat, rest: string)
    requires fields != [] && !fields[0].value.Null?
    ensures var after := Lines(FieldLines(fields, level)) + rest;
            after != "" && after[0] == '\n' && SkipBlank(after) != "" && SkipBlank(after)[0] == ':'
  {
    FieldLinesText(fields, level, rest);
    var body := ":" + (fields[0].key + (" " + (EncodeWithLevel(fields[0].value, level + 1).value
                + (Lines(FieldLines(fields[1..], level)) + rest))));
    SkipLineStart(level + 1, body);
  }

  /** A colon without a key opens an array, not an object. */
  lemma ItemOpensArray(s: string)
    requires |s| >= 2 && s[0] == ':' && s[1] == ' '
    ensures ReadObject(s).None?
  {
    assert TakeWord(s) == ("", s);
    assert TakeWord(s[1..]) == ("", s[1..]);
    assert SkipBlank(s) == s && ReadFields(s).None?;
  }

  lemma ReadsArray(items: seq<Sexpr>, level: nat, rest: string)
    requires items != [] && !items[0].Null?
    requires ReadItems(SkipBlank(Lines(ItemLines(items, level)) + (")" + rest))) == Some((items, ")" + rest))
    ensures ReadSexpr(EncodeWithLevel(Array(items), level).value + rest) == Some((Some(Array(items)), rest))
  {
    var after := Lines(ItemLines(items, level)) + (")" + rest);
    ArrayText(items, level, rest);
    ArrayOpens(items, level, ")" + rest);
    assert SkipBlank(")" + rest) == ")" + rest;
    ReadSexprEnds(after, Some(Array(items)), ")" + rest, rest);
  }

  lemma ArrayOpens(items: seq<Sexpr>, level: nat, rest: string)
    requires items != [] && !items[0].Null?
    ensures ReadObject(SkipBlank(Lines(ItemLines(items, level)) + rest)).None?
  {
    ItemLinesText(items, level, rest);
    var body := ":" + (" " + (EncodeWithLevel(items[0], level + 1).value
                + (Lines(ItemLines(items[1..], level)) + rest)));
    SkipLineStart(level + 1, body);
    ItemOpensArray(body);
  }

  // ----- Whole texts -----

  predicate IsPadding(s: string) {
    SkipBlank(s) == ""
  }

  /** Printing and parsing gives the expression without its nulls; blank space and NULs behind it do not matter. */
  lemma ParsesPrinted(e: Sexpr, padding: string)
    requires ReadsBack(Strip(e)) && IsPadding(padding)
    ensures Parse(ToString(e) + padding) == Some(Strip(e))
  {
    PrintIgnoresNulls(e, 0);
    ReadsPrinted(Strip(e), 0, padding);
    TextStarts(Strip(e), 0);
    var text := ToString(e) + padding;
    assert text[0] == '(';
    assert SkipBlank(text) == text;
  }

  lemma {:induction false} IndentTells(a: nat, x: string, b: nat, y: string)
    requires x != "" && x[0] == ':' && y != "" && y[0] == ':'
    requires Indent(a) + x == Indent(b) + y
    ensures a == b
    decreases a
  {
    assert Indent(0) + x == x && Indent(0) + y == y;
    if a > 0 && b > 0 {
      assert (Indent(a) + x)[1..] == Indent(a - 1) + x;
      assert (Indent(b) + y)[1..] == Indent(b - 1) + y;
      IndentTells(a - 1, x, b - 1, y);
    }
  }

  /** What stands on the first line of an object or array. */
  function FirstLine(e: Sexpr): string {
    "(" + (if e.Object? then OpenWord(e.name) else "") + "\n"
  }

  lemma OpeningGlue(text: string, word: string, indent: string, body: string)
    requires text + "" == "(" + (word + ("\n" + (indent + body)))
    ensures text == "(" + word + "\n" + (indent + body)
  {
    assert text + "" == text;
  }

  lemma ObjectOpening(name: Option<string>, fields: seq<Field>, level: nat) returns (body: string)
    requires fields != [] && !fields[0].value.Null?
    ensures body != "" && body[0] == ':'
    ensures EncodeWithLevel(Object(name, fields), level).value
         == "(" + OpenWord(name) + "\n" + (Indent(level + 1) + body)
  {
    body := ":" + (fields[0].key + (" " + (EncodeWithLevel(fields[0].value, level + 1).value
                + (Lines(FieldLines(fields[1..], level)) + (")" + "")))));
    ObjectText(name, fields, level, "");
    FieldLinesText(fields, level, ")" + "");
    OpeningGlue(EncodeWithLevel(Object(name, fields), level).value, OpenWord(name), Indent(level + 1), body);
  }

  lemma ArrayOpening(items: seq<Sexpr>, level: nat) returns (body: string)
    requires items != [] && !items[0].Null?
    ensures body != "" && body[0] == ':'
    ensures EncodeWithLevel(Array(items), level).value == "(" + "" + "\n" + (Indent(level + 1) + body)
  {
    body := ":" + (" " + (EncodeWithLevel(items[0], level + 1).value
                + (Lines(ItemLines(items[1..], level)) + (")" + ""))));
    ArrayText(items, level, "");
    ItemLinesText(items, level, ")" + "");
    var text := "\n" + (Indent(level + 1) + body);
    assert "" + text == text;
    OpeningGlue(EncodeWithLevel(Array(items), level).value, "", Indent(level + 1), body);
  }

  lemma Opening(e: Sexpr, level: nat) returns (body: string)
    requires Printable(e) && !e.Value?
    ensures body != "" && body[0] == ':'
    ensures EncodeWithLevel(e, level) == Some(FirstLine(e) + (Indent(level + 1) + body))
  {
    TextStarts(e, level);
    if e.Object? {
      FirstFieldShape(e.fields, Quotable);
      body := ObjectOpening(e.name, e.fields, level);
    } else {
      FirstItemShape(e.items, Quotable);
      body := ArrayOpening(e.items, level);
    }
  }

  lemma SameTextSameLevel(e: Sexpr, a: nat, b: nat)
    requires Printable(e) && !e.Value?
    requires EncodeWithLevel(e, a) == EncodeWithLevel(e, b)
    ensures a == b
  {
    var x := Opening(e, a);
    var y := Opening(e, b);
    var first := FirstLine(e);
    assert (first + (Indent(a + 1) + x))[|first|..] == Indent(a + 1) + x;
    assert (first + (Indent(b + 1) + y))[|first|..] == Indent(b + 1) + y;
    IndentTells(a + 1, x, b + 1, y);
  }

  /** Printed text tells the expression, up to nulls, and except for single values also the indentation. */
  lemma UniquelyReadable(a: Sexpr, b: Sexpr, aLevel: nat, bLevel: nat)
    requires Printable(Strip(a)) && Printable(Strip(b))
    ensures EncodeWithLevel(a, aLevel) == EncodeWithLevel(b, bLevel)
        <==> Strip(a) == Strip(b) && (aLevel == bLevel || Strip(a).Value?)
  {
    PrintIgnoresNulls(a, aLevel);
    PrintIgnoresNulls(b, bLevel);
    ReadsPrinted(Strip(a), aLevel, "");
    ReadsPrinted(Strip(b), bLevel, "");
    if EncodeWithLevel(a, aLevel) == EncodeWithLevel(b, bLevel) && !Strip(a).Value? {
      SameTextSameLevel(Strip(a), aLevel, bLevel);
    }
  }

  // ----- Different expressions, the same text -----

  /** An object without fields prints like the value of its name, for every name. */
  lemma EmptyObjectReadsAsValue(name: Option<string>, level: nat)
    requires IsWord(OpenWord(name))
    ensures EncodeWithLevel(Object(name, []), level) == EncodeWithLevel(Value(OpenWord(name)), level)
  {
    assert "(" + OpenWord(name) + "" + "" + ")" == "(" + OpenWord(name) + ")";
  }

  lemma OneFieldLine(f: Field, level: nat)
    requires f.value.Value?
    ensures FieldLines([f], level) == [Indent(level + 1) + ":" + f.key + " " + FormatValue(f.value.text)]
  {
    assert [f][1..] == [];
  }

  lemma TwoFieldsJoined(first: Field, second: Field, level: nat)
    requires first.value.Value? && second.value.Value?
    ensures Join(FieldLines([first, second], level), "\n")
      == Indent(level + 1) + ":" + first.key + " " + FormatValue(first.value.text) + "\n"
         + (Indent(level + 1) + ":" + second.key + " " + FormatValue(second.value.text))
  {
    assert [first, second][1..] == [second];
    OneFieldLine(second, level);
    var a := Indent(level + 1) + ":" + first.key + " " + FormatValue(first.value.text);
    var b := Indent(level + 1) + ":" + second.key + " " + FormatValue(second.value.text);
    assert FieldLines([first, second], level) == [a, b];
    assert [a, b][1..] == [b];
  }

  /** The value that, printed in quotes, closes itself and opens the field `l` with text `b`. */
  function Imitation(a: string, l: string, b: string, level: nat): string {
    a + ("\")" + "\n" + (Indent(level + 1) + ":" + l + " " + "(\"" + b))
  }

  lemma Regroup(head: string, open: string, a: string, close: string, line: string, next: string, b: string)
    ensures head + (open + a + close) + line + (next + (open + b + close))
      == head + (open + (a + (close + line + (next + open + b))) + close)
  {
  }

  lemma TwoLinesAsOne(k: string, a: string, l: string, b: string, level: nat)
    requires !IsWord(a) && !IsWord(b) && !IsWord(Imitation(a, l, b, level))
    ensures Indent(level + 1) + ":" + k + " " + FormatValue(a) + "\n"
            + (Indent(level + 1) + ":" + l + " " + FormatValue(b))
      == Indent(level + 1) + ":" + k + " " + FormatValue(Imitation(a, l, b, level))
  {
    Regroup(Indent(level + 1) + ":" + k + " ", "(\"", a, "\")", "\n", Indent(level + 1) + ":" + l + " ", b);
  }

  /** A quote inside a value can imitate the next field: two fields print like one, for all keys and quoted texts. */
  lemma QuotedValueImitatesField(k: string, a: string, l: string, b: string, level: nat)
    requires !IsWord(a) && !IsWord(b)
    ensures EncodeWithLevel(Object(None, [Field(k, Value(a)), Field(l, Value(b))]), level)
      == EncodeWithLevel(Object(None, [Field(k, Value(Imitation(a, l, b, level)))]), level)
  {
    assert !IsWord(Imitation(a, l, b, level)) by {
      var i :| 0 <= i < |a| && !IsWordChar(a[i]);
      assert Imitation(a, l, b, level)[i] == a[i];
    }
    TwoFieldsJoined(Field(k, Value(a)), Field(l, Value(b)), level);
    OneFieldLine(Field(k, Value(Imitation(a, l, b, level))), level);
    TwoLinesAsOne(k, a, l, b, level);
  }
}
