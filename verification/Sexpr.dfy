/** The S-expressions the gateway speaks (crates/snxcore/src/sexpr.rs) and their printer. */
module Sexprs {
  import opened Wrappers

  /** `Object` holds an ordered map in the source; here it is the sequence of its entries. */
  datatype Sexpr =
    | Null
    | Value(text: string)
    | Object(name: Option<string>, fields: seq<Field>)
    | Array(items: seq<Sexpr>)

  datatype Field = Field(key: string, value: Sexpr)

  function Indent(level: nat): string {
    seq(level, _ => '\t')
  }

  function Join(parts: seq<string>, separator: string): string {
    if parts == [] then ""
    else if |parts| == 1 then parts[0]
    else parts[0] + separator + Join(parts[1..], separator)
  }

  predicate IsWordChar(c: char) {
    'a' <= c <= 'z' || 'A' <= c <= 'Z' || '0' <= c <= '9' || c == '_'
  }

  predicate IsWord(s: string) {
    forall i | 0 <= i < |s| :: IsWordChar(s[i])
  }

  /** A value is quoted as soon as one of its characters is not an ASCII letter, digit or underscore. */
  function FormatValue(text: string): string {
    if IsWord(text) then "(" + text + ")" else "(\"" + text + "\")"
  }

  function EncodeWithLevel(e: Sexpr, level: nat): Option<string>
    decreases e, 1
  {
    match e
    case Null => None
    case Value(text) => Some(FormatValue(text))
    case Object(name, fields) =>
      var body := Join(FieldLines(fields, level), "\n");
      Some("(" + (if name.Some? then name.value else "") + (if body == "" then "" else "\n") + body + ")")
    case Array(items) =>
      Some("(\n" + Join(ItemLines(items, level), "\n") + ")")
  }

  function FieldLines(fields: seq<Field>, level: nat): seq<string>
    decreases fields, 0
  {
    if fields == [] then []
    else
      var rest := FieldLines(fields[1..], level);
      match EncodeWithLevel(fields[0].value, level + 1)
      case None => rest
      case Some(text) => [Indent(level + 1) + ":" + fields[0].key + " " + text] + rest
  }

  function ItemLines(items: seq<Sexpr>, level: nat): seq<string>
    decreases items, 0
  {
    if items == [] then []
    else
      var rest := ItemLines(items[1..], level);
      match EncodeWithLevel(items[0], level + 1)
      case None => rest
      case Some(text) => [Indent(level + 1) + ": " + text] + rest
  }

  function ToString(e: Sexpr): string {
    match EncodeWithLevel(e, 0)
    case None => ""
    case Some(text) => text
  }

  /** What the printer keeps: every `Null` field and `Null` item disappears. */
  function Strip(e: Sexpr): Sexpr
    decreases e, 1
  {
    match e
    case Null => Null
    case Value(_) => e
    case Object(name, fields) => Object(name, StripFields(fields))
    case Array(items) => Array(StripItems(items))
  }

  function StripFields(fields: seq<Field>): seq<Field>
    decreases fields, 0
  {
    if fields == [] then []
    else if fields[0].value.Null? then StripFields(fields[1..])
    else [Field(fields[0].key, Strip(fields[0].value))] + StripFields(fields[1..])
  }

  function StripItems(items: seq<Sexpr>): seq<Sexpr>
    decreases items, 0
  {
    if items == [] then []
    else if items[0].Null? then StripItems(items[1..])
    else [Strip(items[0])] + StripItems(items[1..])
  }

  lemma {:induction false} PrintIgnoresNulls(e: Sexpr, level: nat)
    ensures EncodeWithLevel(Strip(e), level) == EncodeWithLevel(e, level)
    decreases e, 1
  {
    match e
    case Null =>
    case Value(_) =>
    case Object(_, fields) => FieldLinesIgnoreNulls(fields, level);
    case Array(items) => ItemLinesIgnoreNulls(items, level);
  }

  lemma {:induction false} FieldLinesIgnoreNulls(fields: seq<Field>, level: nat)
    ensures FieldLines(StripFields(fields), level) == FieldLines(fields, level)
    decreases fields, 0
  {
    if fields != [] {
      FieldLinesIgnoreNulls(fields[1..], level);
      PrintIgnoresNulls(fields[0].value, level + 1);
      if !fields[0].value.Null? {
        assert StripFields(fields)[1..] == StripFields(fields[1..]);
      }
    }
  }

  lemma {:induction false} ItemLinesIgnoreNulls(items: seq<Sexpr>, level: nat)
    ensures ItemLines(StripItems(items), level) == ItemLines(items, level)
    decreases items, 0
  {
    if items != [] {
      ItemLinesIgnoreNulls(items[1..], level);
      PrintIgnoresNulls(items[0], level + 1);
      if !items[0].Null? {
        assert StripItems(items)[1..] == StripItems(items[1..]);
      }
    }
  }
}
