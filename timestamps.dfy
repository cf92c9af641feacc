/**
  The timestamp extractor of the aggregation pass (main.py:205-215): the
  leftmost match of the fixed-width pattern
      \b\d{2}/[A-Za-z]{3}/\d{4}:\d{2}:\d{2}:\d{2}\b
  in a log line, split into its day, month and hour fields.

  The pattern is 20 characters wide and has no alternatives, so a match
  starting at offset p is a property of the 20 characters at p and of the
  two characters around them; `re.search` returns the match with the
  smallest such p.
 */
module Timestamps {
  import opened Wrappers
  import opened Text

  /** Width of `DD/Mon/YYYY:HH:MM:SS`. */
  const Width: nat := 20

  /** The three fields the aggregation pass reads from a match. */
  datatype Timestamp = Timestamp(day: string, month: string, hour: int)

  /** The 20 characters at offset p have the shape `DD/Mon/YYYY:HH:MM:SS`. */
  predicate FieldsAt(s: string, p: nat)
    requires p + Width <= |s|
  {
    && IsDigit(s[p]) && IsDigit(s[p + 1]) && s[p + 2] == '/'
    && IsAlpha(s[p + 3]) && IsAlpha(s[p + 4]) && IsAlpha(s[p + 5]) && s[p + 6] == '/'
    && IsDigit(s[p + 7]) && IsDigit(s[p + 8]) && IsDigit(s[p + 9]) && IsDigit(s[p + 10])
    && s[p + 11] == ':' && IsDigit(s[p + 12]) && IsDigit(s[p + 13])
    && s[p + 14] == ':' && IsDigit(s[p + 15]) && IsDigit(s[p + 16])
    && s[p + 17] == ':' && IsDigit(s[p + 18]) && IsDigit(s[p + 19])
  }

  /**
    The whole pattern matches at offset p: the fields, and a word boundary
    on both sides (the first and last characters of a match are digits, so
    `\b` asks that the outside neighbour be absent or not a word character).
   */
  predicate MatchesAt(s: string, p: int) {
    && 0 <= p && p + Width <= |s|
    && (p == 0 || !IsWordChar(s[p - 1]))
    && FieldsAt(s, p)
    && (p + Width == |s| || !IsWordChar(s[p + Width]))
  }

  predicate IsLeftmostMatch(s: string, p: int) {
    MatchesAt(s, p) && forall q :: 0 <= q < p ==> !MatchesAt(s, q)
  }

  /** The fields of a match at p, read by position. */
  function FieldsOf(s: string, p: nat): Timestamp
    requires p + Width <= |s| && IsDigit(s[p + 12]) && IsDigit(s[p + 13])
  {
    Timestamp(s[p..p + 2], s[p + 3..p + 6], 10 * DigitValue(s[p + 12]) + DigitValue(s[p + 13]))
  }

  /** Leftmost match at an offset of at least p, as `re.search` scans. */
  function SearchFrom(s: string, p: nat): (r: Option<nat>)
    ensures r.Some? ==> p <= r.value
    decreases |s| - p
  {
    if p + Width > |s| then None
    else if MatchesAt(s, p) then Some(p)
    else SearchFrom(s, p + 1)
  }

  lemma {:induction false} SearchFromSpec(s: string, p: nat)
    ensures var r := SearchFrom(s, p);
      && (r.Some? ==> MatchesAt(s, r.value))
      && (r.Some? ==> forall q :: p <= q < r.value ==> !MatchesAt(s, q))
      && (r.None? ==> forall q :: p <= q ==> !MatchesAt(s, q))
    decreases |s| - p
  {
    if p + Width <= |s| && !MatchesAt(s, p) {
      SearchFromSpec(s, p + 1);
    }
  }

  /** `re.search(pattern, s)`: the offset of the leftmost match, if any. */
  function Search(s: string): Option<nat> {
    SearchFrom(s, 0)
  }

  /** `Search` finds the leftmost match, and finds none only when there is none. */
  lemma SearchSpec(s: string)
    ensures Search(s).Some? ==> IsLeftmostMatch(s, Search(s).value)
    ensures Search(s).None? <==> forall q :: !MatchesAt(s, q)
  {
    SearchFromSpec(s, 0);
  }

  /**
    The source's reading of a matched group g:
    `hour = int(g.split(':')[1])`, `month = g.split('/')[1]`,
    `day = g.split('/')[0]`. These are the fields at their fixed positions.
   */
  lemma Parse(g: string)
    requires |g| == Width && FieldsAt(g, 0)
    ensures |Split(g, ':')| >= 2 && |Split(g, '/')| >= 2 && AllDigits(Split(g, ':')[1])
    ensures Timestamp(Split(g, '/')[0], Split(g, '/')[1], DecimalValue(Split(g, ':')[1])) == FieldsOf(g, 0)
  {
    SplitGroup(g);
  }

  /** How the two splits of a matched group fall. */
  lemma SplitGroup(g: string)
    requires |g| == Width && FieldsAt(g, 0)
    ensures |Split(g, ':')| >= 2 && Split(g, ':')[1] == g[12..14] && AllDigits(g[12..14])
    ensures DecimalValue(g[12..14]) == 10 * DigitValue(g[12]) + DigitValue(g[13])
    ensures |Split(g, '/')| >= 2 && Split(g, '/')[0] == g[..2] && Split(g, '/')[1] == g[3..6]
  {
    SplitColon(g);
    SplitSlash(g);
    var hh := g[12..14];
    assert hh[..1] == [g[12]];
    assert DecimalValue(hh[..1][..0]) == 0;
  }

  lemma SplitColon(g: string)
    requires |g| == Width && FieldsAt(g, 0)
    ensures |Split(g, ':')| >= 2 && Split(g, ':')[1] == g[12..14]
  {
    var a, b, c := g[..11], g[12..14], g[15..];
    assert g == a + [':'] + (b + [':'] + c);
    assert ':' !in a by {
      forall i | 0 <= i < 11 ensures a[i] != ':' { assert a[i] == g[i]; }
    }
    SplitFirst(a, b + [':'] + c, ':');
    assert ':' !in b by {
      assert b == [g[12], g[13]];
    }
    SplitFirst(b, c, ':');
  }

  lemma SplitSlash(g: string)
    requires |g| == Width && FieldsAt(g, 0)
    ensures |Split(g, '/')| >= 2 && Split(g, '/')[0] == g[..2] && Split(g, '/')[1] == g[3..6]
  {
    var a, b, c := g[..2], g[3..6], g[7..];
    assert g == a + ['/'] + (b + ['/'] + c);
    assert '/' !in a by {
      assert a == [g[0], g[1]];
    }
    SplitFirst(a, b + ['/'] + c, '/');
    assert '/' !in b by {
      assert b == [g[3], g[4], g[5]];
    }
    SplitFirst(b, c, '/');
  }

  /** The matched group, cut out of the line, has the same fields. */
  lemma GroupFields(s: string, p: nat)
    requires p + Width <= |s| && FieldsAt(s, p)
    ensures |s[p..p + Width]| == Width
    ensures FieldsAt(s[p..p + Width], 0) && FieldsOf(s[p..p + Width], 0) == FieldsOf(s, p)
  {
    var g := s[p..p + Width];
    forall i | 0 <= i < Width ensures g[i] == s[p + i] { }
    assert g[0..2] == s[p..p + 2];
    assert g[3..6] == s[p + 3..p + 6];
  }

  /**
    Where `Search` finds a match, the source's split-based reading of the
    matched group gives the timestamp of the line.
   */
  lemma ReadGroup(line: string, p: nat)
    requires Search(line) == Some(p)
    ensures p + Width <= |line|
    ensures var g := line[p..p + Width];
      && |Split(g, ':')| >= 2 && |Split(g, '/')| >= 2 && AllDigits(Split(g, ':')[1])
      && FindTimestamp(line) == Some(Timestamp(Split(g, '/')[0], Split(g, '/')[1], DecimalValue(Split(g, ':')[1])))
  {
    SearchSpec(line);
    GroupFields(line, p);
    Parse(line[p..p + Width]);
  }

  /** The timestamp of a log line, read from the leftmost match. */
  function FindTimestamp(line: string): Option<Timestamp> {
    match Search(line)
    case None => None
    case Some(p) =>
      SearchSpec(line);
      Some(FieldsOf(line, p))
  }

  /**
    `FindTimestamp` is absent exactly when the pattern occurs nowhere in
    the line, and otherwise gives the fields of the leftmost occurrence: a
    two-digit day, a three-letter month and an hour in 0..99.
   */
  lemma FindTimestampSpec(line: string)
    ensures FindTimestamp(line).None? <==> forall q :: !MatchesAt(line, q)
    ensures forall p :: IsLeftmostMatch(line, p) ==> FindTimestamp(line) == Some(FieldsOf(line, p))
    ensures FindTimestamp(line).Some? ==> WellFormedFields(FindTimestamp(line).value)
  {
    SearchSpec(line);
    match Search(line)
    case None =>
    case Some(p) =>
      LeftmostUnique(line, p);
      assert AllDigits(line[p..p + 2]) by {
        assert line[p..p + 2][0] == line[p] && line[p..p + 2][1] == line[p + 1];
      }
  }

  /** A two-digit day, a three-letter month and an hour in 0..99. */
  predicate WellFormedFields(t: Timestamp) {
    && |t.day| == 2 && AllDigits(t.day)
    && |t.month| == 3 && IsAlpha(t.month[0]) && IsAlpha(t.month[1]) && IsAlpha(t.month[2])
    && 0 <= t.hour <= 99
  }

  /** There is at most one leftmost match. */
  lemma LeftmostUnique(s: string, p: nat)
    requires IsLeftmostMatch(s, p)
    ensures forall q :: IsLeftmostMatch(s, q) ==> q == p
  {
  }

  /** The example line of an access log, for a given month. */
  function ExampleLine(month: string): string
    requires |month| == 3
  {
    "[05/" + month + "/2024:13:02:11 +0000]"
  }

  /**
    In the example line, with any three-letter month, the pattern matches
    right after the bracket and not before it: day "05", hour 13.
   */
  lemma ExampleLineFields(month: string)
    requires |month| == 3 && IsAlpha(month[0]) && IsAlpha(month[1]) && IsAlpha(month[2])
    ensures FindTimestamp(ExampleLine(month)) == Some(Timestamp("05", month, 13))
  {
    var s := ExampleLine(month);
    assert s[0] == '[' && s[1] == '0' && s[2] == '5' && s[3] == '/';
    assert s[4..7] == month;
    assert s[7] == '/' && s[8] == '2' && s[9] == '0' && s[10] == '2' && s[11] == '4';
    assert s[12] == ':' && s[13] == '1' && s[14] == '3' && s[15] == ':';
    assert s[16] == '0' && s[17] == '2' && s[18] == ':' && s[19] == '1' && s[20] == '1';
    assert s[21] == ' ';
    assert s[1..3] == ['0', '5'];
    assert !MatchesAt(s, 0);
    assert MatchesAt(s, 1);
    assert SearchFrom(s, 1) == Some(1);
  }

  /** A digit run glued to a letter is not a match: `\b` fails before "05". */
  lemma NoBoundaryNoMatch()
    ensures FindTimestamp("x05/Jan/2024:13:02:11") == None
  {
    var s := "x05/Jan/2024:13:02:11";
    assert !MatchesAt(s, 0);
    assert !MatchesAt(s, 1);
    forall q ensures !MatchesAt(s, q) {
      if 1 < q { assert q + Width > |s|; }
    }
    FindTimestampSpec(s);
  }

}
