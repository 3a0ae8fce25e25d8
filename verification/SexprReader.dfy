/**
 * The parser of S-expressions (crates/snxcore/src/sexpr.rs): a recursive descent of the grammar in
 * crates/snxcore/src/sexpr.pest, in which choices are ordered, repetitions are greedy and nothing is tried twice.
 */
module SexprReader {
  import opened Sexprs
  import opened Text
  import opened Wrappers

  type Parsed<T> = Option<(T, string)>

  // ----- Tokens -----

  /** What may stand between any two tokens. */
  predicate IsBlank(c: char) {
    c == ' ' || c == '\t' || c == '\n' || c == '\r' || c == '\0'
  }

  predicate IsParen(c: char) {
    c == '(' || c == ')'
  }

  predicate IsHexDigit(c: char) {
    '0' <= c <= '9' || 'a' <= c <= 'f' || 'A' <= c <= 'F'
  }

  predicate IsIdent(s: string) {
    s != "" && IsWord(s)
  }

  function SkipBlank(s: string): (r: string)
    ensures |r| <= |s| && (r != "" ==> !IsBlank(r[0]))
  {
    if s != "" && IsBlank(s[0]) then SkipBlank(s[1..]) else s
  }

  /** The longest run of word characters at the front, and what follows it. */
  function TakeWord(s: string): (r: (string, string))
    ensures s == r.0 + r.1 && IsWord(r.0)
  {
    if s != "" && IsWordChar(s[0]) then
      var (word, rest) := TakeWord(s[1..]);
      ([s[0]] + word, rest)
    else ("", s)
  }

  /** How long the character at the front of a quoted text is: one, or a complete escape; nothing else counts. */
  function CharLen(s: string): (n: nat)
    ensures n <= |s|
  {
    if s == "" || s[0] == '"' then 0
    else if s[0] != '\\' then 1
    else if |s| >= 2 && s[1] in {'"', '\\', '/', 'b', 'f', 'n', 'r', 't'} then 2
    else if |s| >= 6 && s[1] == 'u' && IsHexDigit(s[2]) && IsHexDigit(s[3]) && IsHexDigit(s[4])
            && IsHexDigit(s[5])
    then 6
    else 0
  }

  lemma Reassociate(s: string, n: nat, text: string, rest: string)
    requires n <= |s| && s[n..] == text + rest
    ensures s == (s[..n] + text) + rest
  {
  }

  /** The longest run of such characters, and what follows it. */
  function TakeChars(s: string): (r: (string, string))
    ensures s == r.0 + r.1
  {
    var n := CharLen(s);
    if n == 0 then ("", s)
    else
      var (text, rest) := TakeChars(s[n..]);
      Reassociate(s, n, text, rest);
      (s[..n] + text, rest)
  }

  /** What is left after further characters of an unquoted value, each of which may follow blank space. */
  function SimpleEnd(s: string): (r: string)
    ensures |r| <= |s|
    decreases |s|
  {
    var after := SkipBlank(s);
    if after == "" || IsParen(after[0]) then s else SimpleEnd(after[1..])
  }

  /** What an unquoted value leaves behind its first character: blank space at its end, unless it is just that one. */
  function SimpleTail(s: string): (r: string)
    ensures |r| <= |s|
  {
    var after := SkipBlank(s);
    if after == "" || IsParen(after[0]) then after else SimpleEnd(after[1..])
  }

  /** A value without quotes: any characters but parentheses. */
  function ReadSimple(s: string): (r: Parsed<string>)
    ensures r.Some? ==> |r.value.1| < |s|
  {
    if s == "" || IsParen(s[0]) then None
    else
      var rest := SimpleTail(s[1..]);
      Some((s[..|s| - |rest|], rest))
  }

  // ----- The grammar -----

  /** An expression in parentheses, which may be empty. */
  function ReadSexpr(s: string): (r: Parsed<Option<Sexpr>>)
    ensures r.Some? ==> |r.value.1| < |s|
    decreases |s|, 0
  {
    if s == "" || s[0] != '(' then None
    else
      var (term, rest) := ReadTerm(SkipBlank(s[1..]));
      var after := SkipBlank(rest);
      if after != "" && after[0] == ')' then Some((term, after[1..])) else None
  }

  function ReadTerm(s: string): (r: (Option<Sexpr>, string))
    ensures |r.1| <= |s|
    decreases |s|, 4
  {
    match ReadObject(s)
    case Some((e, rest)) => (Some(e), rest)
    case None =>
      (match ReadItems(s)
       case Some((items, rest)) => (Some(Array(items)), rest)
       case None =>
         (match ReadValue(s)
          case Some((e, rest)) => (Some(e), rest)
          case None => (None, s)))
  }

  function ReadObject(s: string): (r: Parsed<Sexpr>)
    ensures r.Some? ==> |r.value.1| < |s|
    decreases |s|, 3
  {
    var (name, rest) := TakeWord(s);
    match ReadFields(SkipBlank(rest))
    case None => None
    case Some((fields, rest)) => Some((Object(if name == "" then None else Some(name), Collect(fields)), rest))
  }

  /** One field or more. */
  function ReadFields(s: string): (r: Parsed<seq<Field>>)
    ensures r.Some? ==> |r.value.1| < |s|
    decreases |s|, 2
  {
    match ReadField(s)
    case None => None
    case Some((field, rest)) =>
      match ReadFields(SkipBlank(rest))
      case None => Some(([field], rest))
      case Some((fields, rest)) => Some(([field] + fields, rest))
  }

  function ReadField(s: string): (r: Parsed<Field>)
    ensures r.Some? ==> |r.value.1| < |s|
    decreases |s|, 1
  {
    if s == "" || s[0] != ':' then None
    else
      var (key, rest) := TakeWord(s[1..]);
      if key == "" then None
      else match ReadSexpr(SkipBlank(rest))
           case None => None
           case Some((term, rest)) => Some((Field(key, Built(term)), rest))
  }

  /** One item or more. */
  function ReadItems(s: string): (r: Parsed<seq<Sexpr>>)
    ensures r.Some? ==> |r.value.1| < |s|
    decreases |s|, 2
  {
    if s == "" || s[0] != ':' then None
    else match ReadSexpr(SkipBlank(s[1..]))
         case None => None
         case Some((term, rest)) =>
           match ReadItems(SkipBlank(rest))
           case None => Some(([Built(term)], rest))
           case Some((items, rest)) => Some(([Built(term)] + items, rest))
  }

  /** A quoted text if one is there, otherwise whatever stands before the next parenthesis. */
  function ReadValue(s: string): (r: Parsed<Sexpr>)
    ensures r.Some? ==> |r.value.1| < |s|
  {
    match ReadQuoted(s)
    case Some((text, rest)) => Some((Value(text), rest))
    case None =>
      match ReadSimple(s)
      case Some((text, rest)) => Some((Value(text), rest))
      case None => None
  }

  function ReadQuoted(s: string): (r: Parsed<string>)
    ensures r.Some? ==> |r.value.1| < |s|
  {
    if s == "" || s[0] != '"' then None
    else
      var (text, rest) := TakeChars(s[1..]);
      if rest != "" && rest[0] == '"' then Some((text, rest[1..])) else None
  }

  /** A whole text: one expression that is not empty, with nothing but blank space around it. */
  function Parse(s: string): Option<Sexpr> {
    match ReadSexpr(SkipBlank(s))
    case None => None
    case Some((term, rest)) => if SkipBlank(rest) == "" then term else None
  }

  // ----- The tree builder -----

  /** Inside another expression, empty parentheses are an empty value. */
  function Built(term: Option<Sexpr>): Sexpr {
    match term
    case None => Value("")
    case Some(e) => e
  }

  /** A map's insertion: in key order, and a later entry replaces an earlier one with its key. */
  function Insert(fields: seq<Field>, f: Field): (r: seq<Field>)
    ensures r != []
  {
    if fields == [] then [f]
    else match CompareText(f.key, fields[0].key)
         case Less => [f] + fields
         case Equal => [f] + fields[1..]
         case Greater => [fields[0]] + Insert(fields[1..], f)
  }

  function Collect(fields: seq<Field>): (r: seq<Field>)
    ensures fields != [] ==> r != []
  {
    if fields == [] then [] else Insert(Collect(fields[..|fields| - 1]), fields[|fields| - 1])
  }

  /** The keys of a map, in order. */
  predicate Ascending(fields: seq<Field>) {
    forall i, j | 0 <= i < j < |fields| :: CompareText(fields[i].key, fields[j].key) == Less
  }

  lemma {:induction false} InsertKeeps(fields: seq<Field>, f: Field)
    requires Ascending(fields)
    ensures Ascending(Insert(fields, f))
    ensures forall i | 0 <= i < |Insert(fields, f)| :: Insert(fields, f)[i] == f || Insert(fields, f)[i] in fields
  {
    if fields != [] {
      CompareTextEqual(f.key, fields[0].key);
      CompareTextFlips(f.key, fields[0].key);
      match CompareText(f.key, fields[0].key)
      case Less =>
        forall j | 0 <= j < |fields|
          ensures CompareText(f.key, fields[j].key) == Less
        {
          if j > 0 {
            CompareTextChains(f.key, fields[0].key, fields[j].key);
          }
        }
      case Equal =>
      case Greater =>
        InsertKeeps(fields[1..], f);
        var rest := Insert(fields[1..], f);
        forall j | 0 <= j < |rest|
          ensures CompareText(fields[0].key, rest[j].key) == Less
        {
          if rest[j] != f {
            var k :| 0 <= k < |fields[1..]| && fields[1..][k] == rest[j];
            assert fields[k + 1] == rest[j];
          }
        }
    }
  }

  lemma {:induction false} CollectKeeps(fields: seq<Field>)
    ensures Ascending(Collect(fields))
    ensures forall i | 0 <= i < |Collect(fields)| :: Collect(fields)[i] in fields
  {
    if fields != [] {
      var front, last := fields[..|fields| - 1], fields[|fields| - 1];
      CollectKeeps(front);
      InsertKeeps(Collect(front), last);
    }
  }

  lemma LaterKeysDiffer(fields: seq<Field>, j: nat)
    requires Ascending(fields) && 0 < j < |fields|
    ensures fields[j].key != fields[0].key
  {
    CompareTextEqual(fields[0].key, fields[j].key);
    assert CompareText(fields[0].key, fields[j].key) == Less;
  }

  lemma {:induction false} InsertReplaces(fields: seq<Field>, f: Field, g: Field)
    requires Ascending(fields)
    ensures g in Insert(fields, f) <==> g == f || (g in fields && g.key != f.key)
  {
    if fields != [] {
      assert fields == [fields[0]] + fields[1..];
      CompareTextEqual(f.key, fields[0].key);
      match CompareText(f.key, fields[0].key)
      case Less =>
        if g in fields {
          var j :| 0 <= j < |fields| && fields[j] == g;
          if j > 0 {
            CompareTextChains(f.key, fields[0].key, fields[j].key);
          }
          CompareTextEqual(f.key, fields[j].key);
        }
      case Equal =>
        if g in fields[1..] {
          var j :| 0 <= j < |fields[1..]| && fields[1..][j] == g;
          LaterKeysDiffer(fields, j + 1);
        }
      case Greater => InsertReplaces(fields[1..], f, g);
    }
  }

  /** No later field has the same key. */
  predicate IsLast(fields: seq<Field>, i: nat)
    requires i < |fields|
  {
    forall j | i < j < |fields| :: fields[j].key != fields[i].key
  }

  predicate HasLast(fields: seq<Field>, g: Field) {
    exists i | 0 <= i < |fields| :: fields[i] == g && IsLast(fields, i)
  }

  lemma OneMoreField(fields: seq<Field>, f: Field, g: Field)
    ensures HasLast(fields + [f], g) <==> g == f || (HasLast(fields, g) && g.key != f.key)
  {
    var all := fields + [f];
    assert all[|fields|] == f && IsLast(all, |fields|);
    if HasLast(fields, g) && g.key != f.key {
      var i :| 0 <= i < |fields| && fields[i] == g && IsLast(fields, i);
      assert all[i] == g && IsLast(all, i);
    }
    if HasLast(all, g) && g != f {
      var i :| 0 <= i < |all| && all[i] == g && IsLast(all, i);
      assert all[|fields|].key != all[i].key;
      forall j | i < j < |fields|
        ensures fields[j].key != fields[i].key
      {
        assert all[j] == fields[j];
      }
      assert fields[i] == g && IsLast(fields, i);
    }
  }

  /** Of all fields with the same key, exactly the last one is kept. */
  lemma {:induction false} CollectKeepsLast(fields: seq<Field>, g: Field)
    ensures g in Collect(fields) <==> HasLast(fields, g)
  {
    if fields != [] {
      var front, last := fields[..|fields| - 1], fields[|fields| - 1];
      CollectKeeps(front);
      CollectKeepsLast(front, g);
      InsertReplaces(Collect(front), last, g);
      OneMoreField(front, last, g);
      assert front + [last] == fields;
    }
  }

  lemma {:induction false} InsertLast(fields: seq<Field>, f: Field)
    requires Ascending(fields + [f])
    ensures Insert(fields, f) == fields + [f]
  {
    if fields != [] {
      var all := fields + [f];
      assert CompareText(all[0].key, all[|fields|].key) == Less;
      CompareTextFlips(all[0].key, all[|fields|].key);
      assert all[1..] == fields[1..] + [f];
      assert Ascending(all[1..]);
      InsertLast(fields[1..], f);
    }
  }

  /** What is in key order already is collected as it is. */
  lemma {:induction false} CollectAscending(fields: seq<Field>)
    requires Ascending(fields)
    ensures Collect(fields) == fields
  {
    if fields != [] {
      var front, last := fields[..|fields| - 1], fields[|fields| - 1];
      assert fields == front + [last];
      CollectAscending(front);
      InsertLast(front, last);
    }
  }
}
