/** The configuration file's lines (crates/snxcore/src/util.rs). */
module ConfigText {
  import opened Text
  import opened Wrappers

  /** What is trimmed off a value: whitespace and double quotes. */
  const EDGES: set<char> := WHITESPACE + {'"'}

  /** A value that a line can carry unchanged. */
  predicate Clean(v: string) {
    v != "" && '\n' !in v && Trimmed(v, EDGES)
  }

  /** A key that a line can carry unchanged. */
  predicate GoodKey(k: string) {
    k != "" && forall i | 0 <= i < |k| :: 'a' <= k[i] <= 'z' || '0' <= k[i] <= '9' || k[i] == '-'
  }

  function WithoutReturn(line: string): string {
    if line != "" && line[|line| - 1] == '\r' then line[..|line| - 1] else line
  }

  /** Lines end in a newline, or a carriage return and a newline; the last line may lack its end. */
  function LinesOf(pieces: seq<string>): seq<string> {
    if pieces == [] || pieces == [""] then []
    else if |pieces| == 1 then pieces
    else [WithoutReturn(pieces[0])] + LinesOf(pieces[1..])
  }

  function Lines(text: string): seq<string> {
    LinesOf(Split(text, '\n'))
  }

  /** A key and its value; comments, lines without `=` and empty values count for nothing. */
  function ParseLine(line: string): Option<(string, string)> {
    var trimmed := Trim(line);
    if trimmed != "" && trimmed[0] == '#' then None
    else
      var parts := SplitOnce(line, '=');
      if |parts| != 2 then None
      else
        var value := TrimMatches(parts[1], EDGES);
        if value == "" then None else Some((Trim(parts[0]), value))
  }

  /** A later line replaces an earlier one with the same key. */
  function ParseLines(lines: seq<string>): map<string, string> {
    if lines == [] then map[]
    else
      var earlier := ParseLines(lines[..|lines| - 1]);
      match ParseLine(lines[|lines| - 1])
      case None => earlier
      case Some((k, v)) => earlier[k := v]
  }

  function Parsed(text: string): map<string, string> {
    ParseLines(Lines(text))
  }

  method ParseConfig(config: string) returns (result: map<string, string>)
    ensures result == Parsed(config)
  {
    result := map[];
    var lines := Lines(config);
    for i := 0 to |lines|
      invariant result == ParseLines(lines[..i])
    {
      assert lines[..i + 1][..i] == lines[..i];
      var trimmed := Trim(lines[i]);
      if trimmed != "" && trimmed[0] == '#' {
        continue;
      }
      var parts := SplitOnce(lines[i], '=');
      if |parts| == 2 {
        var k, v := Trim(parts[0]), TrimMatches(parts[1], EDGES);
        if v != "" {
          result := result[k := v];
        }
      }
    }
    assert lines[..|lines|] == lines;
  }

  // ----- Writing -----

  function Line(key: string, value: string): string {
    key + ['='] + value
  }

  function Unlines(lines: seq<string>): string {
    if lines == [] then "" else lines[0] + ['\n'] + Unlines(lines[1..])
  }

  lemma {:induction false} LinesReadBack(lines: seq<string>)
    requires forall l | l in lines :: '\n' !in l && WithoutReturn(l) == l
    ensures Lines(Unlines(lines)) == lines
  {
    if lines != [] {
      LinesReadBack(lines[1..]);
      SplitFirst(lines[0], Unlines(lines[1..]), '\n');
      assert Split(Unlines(lines), '\n')[1..] == Split(Unlines(lines[1..]), '\n');
      assert lines == [lines[0]] + lines[1..];
    }
  }

  lemma KeyStays(k: string)
    requires GoodKey(k)
    ensures Trim(k) == k && '=' !in k && k[0] != '#'
  {
    TrimmedStays(k, WHITESPACE);
  }

  lemma {:induction false} TrimKeepsFirst(s: string, drop: set<char>)
    requires s != "" && s[0] !in drop
    ensures TrimMatches(s, drop) != "" && TrimMatches(s, drop)[0] == s[0]
  {
    TrimEndKeepsFirst(s, drop);
  }

  lemma {:induction false} TrimEndKeepsFirst(s: string, drop: set<char>)
    requires s != "" && s[0] !in drop
    ensures TrimEnd(s, drop) != "" && TrimEnd(s, drop)[0] == s[0]
  {
    if s[|s| - 1] in drop {
      TrimEndKeepsFirst(s[..|s| - 1], drop);
    }
  }

  /** A written line reads back as its key and value; an empty value disappears. */
  lemma LineReadsBack(key: string, value: string)
    requires GoodKey(key) && (value == "" || Clean(value))
    ensures ParseLine(Line(key, value)) == if value == "" then None else Some((key, value))
    ensures '\n' !in Line(key, value) && WithoutReturn(Line(key, value)) == Line(key, value)
  {
    var line := Line(key, value);
    KeyStays(key);
    TrimKeepsFirst(line, WHITESPACE);
    SplitJoinOnce(key, value, '=');
    TrimmedStays(value, EDGES);
  }

  // ----- What a file can carry at all -----

  lemma {:induction false} LineHasNoNewline(pieces: seq<string>)
    requires forall p | p in pieces :: '\n' !in p
    ensures forall l | l in LinesOf(pieces) :: '\n' !in l
  {
    if |pieces| > 1 {
      LineHasNoNewline(pieces[1..]);
      assert pieces[0] in pieces;
      assert '\n' !in WithoutReturn(pieces[0]);
    }
  }

  lemma {:induction false} ParsedIsClean(lines: seq<string>)
    requires forall l | l in lines :: '\n' !in l
    ensures forall k | k in ParseLines(lines) :: Clean(ParseLines(lines)[k])
  {
    if lines != [] {
      var line := lines[|lines| - 1];
      ParsedIsClean(lines[..|lines| - 1]);
      var parts := SplitOnce(line, '=');
      if |parts| == 2 {
        TrimMatchesTrims(parts[1], EDGES);
        SplitOnceChars(line, '=');
      }
    }
  }

  lemma SplitOnceChars(s: string, separator: char)
    ensures forall p, c | p in SplitOnce(s, separator) && c in p :: c in s
  {
    SplitParts(s, separator);
    JoinSplit(s, separator);
    var parts := Split(s, separator);
    if |parts| > 1 {
      var rest := JoinWith(parts[1..], separator);
      assert s == parts[0] + [separator] + rest;
      assert forall c | c in rest :: c in s;
    }
  }

  /** Whatever is read from any text is clean, so only clean values can ever come back. */
  lemma OnlyCleanValues(text: string)
    ensures forall k | k in Parsed(text) :: Clean(Parsed(text)[k])
  {
    SplitParts(text, '\n');
    LineHasNoNewline(Split(text, '\n'));
    ParsedIsClean(Lines(text));
  }
}
