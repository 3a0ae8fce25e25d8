/** Small text functions of the standard library that several parts of the source rely on. */
module Text {
  /** The characters with the Unicode property White_Space. */
  const WHITESPACE: set<char> := {
    '\t', '\n', '\U{000B}', '\U{000C}', '\r', ' ', '\U{0085}', '\U{00A0}', '\U{1680}', '\U{2000}', '\U{2001}',
    '\U{2002}', '\U{2003}', '\U{2004}', '\U{2005}', '\U{2006}', '\U{2007}', '\U{2008}', '\U{2009}', '\U{200A}',
    '\U{2028}', '\U{2029}', '\U{202F}', '\U{205F}', '\U{3000}'}

  function TrimStart(s: string, drop: set<char>): (r: string)
    ensures |r| <= |s| && (r != "" ==> r[0] !in drop)
  {
    if s != "" && s[0] in drop then TrimStart(s[1..], drop) else s
  }

  function TrimEnd(s: string, drop: set<char>): (r: string)
    ensures |r| <= |s| && r == s[..|r|] && (r != "" ==> r[|r| - 1] !in drop)
  {
    if s != "" && s[|s| - 1] in drop then TrimEnd(s[..|s| - 1], drop) else s
  }

  function TrimMatches(s: string, drop: set<char>): string {
    TrimEnd(TrimStart(s, drop), drop)
  }

  function Trim(s: string): string {
    TrimMatches(s, WHITESPACE)
  }

  /** Nothing is left to trim. */
  predicate Trimmed(s: string, drop: set<char>) {
    s == "" || (s[0] !in drop && s[|s| - 1] !in drop)
  }

  lemma TrimmedStays(s: string, drop: set<char>)
    requires Trimmed(s, drop)
    ensures TrimMatches(s, drop) == s
  {
  }

  lemma {:induction false} TrimStartKeeps(s: string, drop: set<char>)
    ensures forall c | c in TrimStart(s, drop) :: c in s
  {
    if s != "" && s[0] in drop {
      TrimStartKeeps(s[1..], drop);
    }
  }

  lemma TrimMatchesTrims(s: string, drop: set<char>)
    ensures Trimmed(TrimMatches(s, drop), drop)
    ensures forall c | c in TrimMatches(s, drop) :: c in s
  {
    TrimStartKeeps(s, drop);
  }

  /** The parts between the separators; always at least one. */
  function Split(s: string, separator: char): (r: seq<string>)
    ensures r != []
  {
    if s == "" then [""]
    else
      var rest := Split(s[1..], separator);
      if s[0] == separator then [""] + rest else [[s[0]] + rest[0]] + rest[1..]
  }

  function JoinWith(parts: seq<string>, separator: char): string {
    if parts == [] then ""
    else if |parts| == 1 then parts[0]
    else parts[0] + [separator] + JoinWith(parts[1..], separator)
  }

  /** The parts before and after the first separator. */
  function SplitOnce(s: string, separator: char): seq<string> {
    var parts := Split(s, separator);
    if |parts| == 1 then parts else [parts[0], JoinWith(parts[1..], separator)]
  }

  lemma {:induction false} SplitWhole(s: string, separator: char)
    requires separator !in s
    ensures Split(s, separator) == [s]
  {
    if s != "" {
      SplitWhole(s[1..], separator);
      assert s == [s[0]] + s[1..];
    }
  }

  lemma {:induction false} SplitFirst(part: string, rest: string, separator: char)
    requires separator !in part
    ensures Split(part + [separator] + rest, separator) == [part] + Split(rest, separator)
  {
    var s := part + [separator] + rest;
    if part == "" {
      assert s[1..] == rest;
    } else {
      assert s[1..] == part[1..] + [separator] + rest;
      SplitFirst(part[1..], rest, separator);
      assert part == [part[0]] + part[1..];
    }
  }

  /** What is joined splits again, as long as no part holds the separator. */
  lemma {:induction false} SplitJoin(parts: seq<string>, separator: char)
    requires parts != [] && forall p | p in parts :: separator !in p
    ensures Split(JoinWith(parts, separator), separator) == parts
  {
    if |parts| == 1 {
      SplitWhole(parts[0], separator);
    } else {
      SplitJoin(parts[1..], separator);
      SplitFirst(parts[0], JoinWith(parts[1..], separator), separator);
    }
  }

  lemma SplitJoinOnce(part: string, rest: string, separator: char)
    requires separator !in part
    ensures SplitOnce(part + [separator] + rest, separator) == [part, rest]
  {
    SplitFirst(part, rest, separator);
    JoinSplit(rest, separator);
    var parts := Split(part + [separator] + rest, separator);
    assert parts[1..] == Split(rest, separator);
  }

  lemma {:induction false} JoinSplit(s: string, separator: char)
    ensures JoinWith(Split(s, separator), separator) == s
  {
    if s != "" {
      JoinSplit(s[1..], separator);
      var rest := Split(s[1..], separator);
      var parts := Split(s, separator);
      if s[0] == separator {
        assert parts[1..] == rest;
      } else if |rest| > 1 {
        assert parts[1..] == rest[1..];
        assert JoinWith(parts, separator) == ([s[0]] + rest[0]) + [separator] + JoinWith(rest[1..], separator);
        assert JoinWith(parts, separator) == [s[0]] + JoinWith(rest, separator);
      }
      assert s == [s[0]] + s[1..];
    }
  }

  /** The parts hold the text's characters, without separators. */
  lemma {:induction false} SplitParts(s: string, separator: char)
    ensures forall p | p in Split(s, separator) :: separator !in p && forall c | c in p :: c in s
  {
    if s != "" {
      SplitParts(s[1..], separator);
      var rest := Split(s[1..], separator);
      var parts := Split(s, separator);
      forall i | 0 <= i < |parts|
        ensures separator !in parts[i] && forall c | c in parts[i] :: c in s
      {
        var k := if s[0] == separator && i > 0 then i - 1 else i;
        if i > 0 || s[0] != separator {
          assert rest[k] in rest;
        }
      }
    }
  }

  // ----- Comparing -----

  datatype Ordering = Less | Equal | Greater

  function Flip(o: Ordering): Ordering {
    if o == Less then Greater else if o == Greater then Less else Equal
  }

  /** Alphabetical by code point. */
  function CompareText(a: string, b: string): Ordering {
    if a == "" && b == "" then Equal
    else if a == "" then Less
    else if b == "" then Greater
    else if a[0] == b[0] then CompareText(a[1..], b[1..])
    else if a[0] < b[0] then Less else Greater
  }

  lemma {:induction false} CompareTextFlips(a: string, b: string)
    ensures CompareText(b, a) == Flip(CompareText(a, b))
  {
    if a != "" && b != "" && a[0] == b[0] {
      CompareTextFlips(a[1..], b[1..]);
    }
  }

  lemma {:induction false} CompareTextChains(a: string, b: string, c: string)
    requires CompareText(a, b) != Greater && CompareText(b, c) != Greater
    ensures CompareText(a, c) != Greater
    ensures CompareText(a, c) == Equal ==> CompareText(a, b) == Equal && CompareText(b, c) == Equal
  {
    if a != "" && b != "" && c != "" && a[0] == b[0] && b[0] == c[0] {
      CompareTextChains(a[1..], b[1..], c[1..]);
    }
  }

  lemma {:induction false} CompareTextEqual(a: string, b: string)
    ensures CompareText(a, b) == Equal <==> a == b
  {
    if a != "" && b != "" && a[0] == b[0] {
      CompareTextEqual(a[1..], b[1..]);
      assert a == [a[0]] + a[1..] && b == [b[0]] + b[1..];
    }
  }

  /** Texts are compared at their first difference, and a text comes before its own continuations. */
  lemma {:induction false} CompareTextAtDifference(common: string, a: string, b: string)
    ensures a != "" && b != "" && a[0] < b[0] ==> CompareText(common + a, common + b) == Less
    ensures a != "" ==> CompareText(common, common + a) == Less
  {
    if common == "" {
      assert common + a == a && common + b == b;
    } else {
      assert (common + a)[1..] == common[1..] + a && (common + b)[1..] == common[1..] + b;
      CompareTextAtDifference(common[1..], a, b);
    }
  }
}
