/** The total extractor: `re.search` of
    `(Total|Amount Due|Grand Total)\s*:\s*(\d+\.\d{2})` with `re.IGNORECASE`
    on one line. The colon is mandatory, the pattern is not anchored at
    either end, and only the amount (group 2) is kept. */
module TotalPattern {
  import opened Options
  import opened Text
  import opened Search

  /** The alternatives of `(Total|Amount Due|Grand Total)` in the order the
      alternation tries them, in lower case. */
  const Labels: seq<string> := ["total", "amount due", "grand total"]

  /** ASCII lower-casing. None of the letters of the labels has a non-ASCII
      case partner, so this is the whole of the case-insensitive comparison. */
  function Lower(c: char): char
  {
    if 'A' <= c <= 'Z' then (c as int + 32) as char else c
  }

  /** Alternative `l` matches, ignoring case, at position `i`. */
  predicate LabelAt(line: string, i: nat, l: nat)
    requires l < |Labels|
  {
    && i + |Labels[l]| <= |line|
    && forall k :: 0 <= k < |Labels[l]| ==> Lower(line[i + k]) == Labels[l][k]
  }

  /** The cents denoted by the digits `line[b..c]`, the point at `c` and the two digits after it. */
  function AmountOf(line: string, b: nat, c: nat): nat
    requires b <= c && c + 3 <= |line|
    requires All(line[b..c], IsDigit) && IsDigit(line[c + 1]) && IsDigit(line[c + 2])
  {
    Cents(line[b..c], line[c + 1..c + 3])
  }

  /** `\d+\.\d{2}` tried at `b` the way the matcher does it: the greedy digit run,
      then a point and two digits. */
  function AmountAt(line: string, b: nat): Option<nat>
    requires b <= |line|
  {
    var c := SpanForward(line, b, IsDigit);
    if b < c && c + 3 <= |line| && line[c] == '.' && IsDigit(line[c + 1]) && IsDigit(line[c + 2]) then
      Some(AmountOf(line, b, c))
    else
      None
  }

  /** `\s*:\s*(\d+\.\d{2})` tried at `j`, just after a label. Both whitespace runs
      are greedy; giving characters back cannot help, since a colon or a digit
      has to follow them. */
  function TailAt(line: string, j: nat): Option<nat>
    requires j <= |line|
  {
    var a := SpanForward(line, j, IsSpace);
    if a < |line| && line[a] == ':' then AmountAt(line, SpanForward(line, a + 1, IsSpace)) else None
  }

  /** Alternative `l` of the group tried at position `i`, with the rest of the
      pattern after it. */
  function AlternativeAt(line: string, i: nat, l: nat): Option<nat>
  {
    if l < |Labels| && LabelAt(line, i, l) then TailAt(line, i + |Labels[l]|) else None
  }

  /** The pattern tried at position `i`: the alternatives are tried in order and
      the first one that leads to a whole match decides the amount. */
  function TotalAt(line: string, i: nat): Option<nat>
  {
    Leftmost((l: nat) => AlternativeAt(line, i, l), 0, |Labels| - 1)
  }

  /** What the pattern itself accepts after a label at `j`: whitespace up to the
      colon at `a`, whitespace up to the first digit at `b`, digits up to the
      point at `c`, and two digits after it. */
  ghost predicate TailMatch(line: string, j: nat, a: nat, b: nat, c: nat)
  {
    && j <= a && a + 1 <= b < c && c + 3 <= |line|
    && All(line[j..a], IsSpace) && line[a] == ':'
    && All(line[a + 1..b], IsSpace)
    && All(line[b..c], IsDigit) && line[c] == '.' && IsDigit(line[c + 1]) && IsDigit(line[c + 2])
  }

  /** A whole match of the total pattern starting at `i`, using alternative `l`. */
  ghost predicate TotalMatchWith(line: string, i: nat, l: nat, a: nat, b: nat, c: nat)
  {
    l < |Labels| && LabelAt(line, i, l) && TailMatch(line, i + |Labels[l]|, a, b, c)
  }

  /** Some match of the total pattern starts at `i`. */
  ghost predicate TotalMatchAt(line: string, i: nat)
  {
    exists l: nat, a: nat, b: nat, c: nat :: TotalMatchWith(line, i, l, a, b, c)
  }

  /** Every match starting at `i` captures the amount `t`. */
  ghost predicate CapturesAt(line: string, i: nat, t: nat)
  {
    forall l: nat, a: nat, b: nat, c: nat :: TotalMatchWith(line, i, l, a, b, c) ==> t == AmountOf(line, b, c)
  }

  /** The labels begin with different letters, so at most one matches at a position. */
  lemma LabelsExclusive(line: string, i: nat, l: nat, l': nat)
    requires l < |Labels| && l' < |Labels|
    requires LabelAt(line, i, l) && LabelAt(line, i, l')
    ensures l == l'
  {
    assert Lower(line[i + 0]) == Labels[l][0] && Lower(line[i + 0]) == Labels[l'][0];
  }

  /** Any way the pattern reads the tail at `j` is the way `TailAt` reads it. */
  lemma TailMatchDetermined(line: string, j: nat, a: nat, b: nat, c: nat)
    requires TailMatch(line, j, a, b, c)
    ensures TailAt(line, j) == Some(AmountOf(line, b, c))
  {
    SpanForwardUnique(line, j, a, IsSpace);
    assert line[b..c][0] == line[b];
    SpanForwardUnique(line, a + 1, b, IsSpace);
    SpanForwardUnique(line, b, c, IsDigit);
  }

  /** What `TailAt` finds is a reading of the tail the pattern accepts. */
  lemma TailAtSound(line: string, j: nat)
    requires j <= |line|
    requires TailAt(line, j).Some?
    ensures exists a: nat, b: nat, c: nat :: TailMatch(line, j, a, b, c) && TailAt(line, j) == Some(AmountOf(line, b, c))
  {
    var a := SpanForward(line, j, IsSpace);
    var b := SpanForward(line, a + 1, IsSpace);
    var c := SpanForward(line, b, IsDigit);
    assert TailMatch(line, j, a, b, c);
  }

  /** Every whole match starting at `i` is found by the ordered alternation,
      with the amount that match captures. */
  lemma MatchFound(line: string, i: nat, l: nat, a: nat, b: nat, c: nat)
    requires TotalMatchWith(line, i, l, a, b, c)
    ensures TotalAt(line, i) == Some(AmountOf(line, b, c))
  {
    TailMatchDetermined(line, i + |Labels[l]|, a, b, c);
    var attempt := (l': nat) => AlternativeAt(line, i, l');
    forall l': nat | l' <= |Labels| - 1 && l' != l
      ensures attempt(l').None?
    {
      if LabelAt(line, i, l') {
        LabelsExclusive(line, i, l, l');
      }
    }
    LeftmostOnly(attempt, 0, |Labels| - 1, l);
  }

  /** What the ordered alternation returns comes from a whole match starting at `i`. */
  lemma FoundIsMatch(line: string, i: nat)
    requires TotalAt(line, i).Some?
    ensures TotalMatchAt(line, i)
  {
    var l := LeftmostFound((l': nat) => AlternativeAt(line, i, l'), 0, |Labels| - 1);
    assert AlternativeAt(line, i, l).Some?;
    TailAtSound(line, i + |Labels[l]|);
    var a: nat, b: nat, c: nat :| TailMatch(line, i + |Labels[l]|, a, b, c);
    assert TotalMatchWith(line, i, l, a, b, c);
  }

  /** A match at the first character decides the total of the line. */
  lemma MatchAtStart(line: string, l: nat, a: nat, b: nat, c: nat)
    requires TotalMatchWith(line, 0, l, a, b, c)
    ensures FindTotal(line) == Some(AmountOf(line, b, c))
  {
    MatchFound(line, 0, l, a, b, c);
    assert FindTotal(line) == TotalAt(line, 0);
  }

  /** The ordered alternation finds an amount exactly when some whole match starts
      at `i`, and then it is the amount every such match captures. */
  lemma TotalAtMatches(line: string, i: nat)
    ensures TotalAt(line, i).Some? <==> TotalMatchAt(line, i)
    ensures TotalAt(line, i).Some? ==> CapturesAt(line, i, TotalAt(line, i).value)
  {
    forall l: nat, a: nat, b: nat, c: nat | TotalMatchWith(line, i, l, a, b, c)
      ensures TotalAt(line, i) == Some(AmountOf(line, b, c))
    {
      MatchFound(line, i, l, a, b, c);
    }
    if TotalAt(line, i).Some? {
      FoundIsMatch(line, i);
    }
  }

  /** A match starts inside the line. */
  lemma MatchStartsInLine(line: string, m: nat)
    requires TotalMatchAt(line, m)
    ensures m < |line|
  {
    var l: nat, a: nat, b: nat, c: nat :| TotalMatchWith(line, m, l, a, b, c);
  }

  /** A match starts with the first letter of one of the labels, in either case. */
  lemma MatchStartsWithLabel(line: string, m: nat)
    requires TotalMatchAt(line, m)
    ensures m < |line| && Lower(line[m]) in {'t', 'a', 'g'}
  {
    var l: nat, a: nat, b: nat, c: nat :| TotalMatchWith(line, m, l, a, b, c);
    assert Lower(line[m + 0]) == Labels[l][0];
  }

  /** No match of the total pattern starts at or after `i`. */
  ghost predicate NoMatchFrom(line: string, i: nat)
  {
    forall m: nat :: i <= m ==> !TotalMatchAt(line, m)
  }

  /** `m` is the first position at or after `i` where a match starts. */
  ghost predicate FirstMatchFrom(line: string, i: nat, m: nat)
  {
    i <= m && TotalMatchAt(line, m) && forall m': nat :: i <= m' < m ==> !TotalMatchAt(line, m')
  }

  /** `total_pattern.search(line)`: the amount captured by the leftmost match, if any. */
  function FindTotal(line: string): Option<nat>
  {
    Leftmost((m: nat) => TotalAt(line, m), 0, |line|)
  }

  /** `FindTotal` is `re.search`: nothing is found exactly when no match starts
      anywhere in the line, and otherwise the result is the amount captured by
      the leftmost match. */
  lemma FindTotalSpec(line: string)
    ensures FindTotal(line).None? <==> NoMatchFrom(line, 0)
    ensures FindTotal(line).Some? ==> exists m: nat :: FirstMatchFrom(line, 0, m) && CapturesAt(line, m, FindTotal(line).value)
  {
    var attempt := (m: nat) => TotalAt(line, m);
    LeftmostSpec(attempt, 0, |line|);
    assert forall m: nat :: attempt(m) == TotalAt(line, m);
    LeftmostAlternation(line, FindTotal(line));
  }

  /** A result that is the alternation at the first position where it succeeds
      is the amount of the leftmost match, since the alternation succeeds exactly
      where a match starts. */
  lemma LeftmostAlternation(line: string, r: Option<nat>)
    requires r.None? <==> forall m: nat :: m <= |line| ==> TotalAt(line, m).None?
    requires r.Some? ==> exists m: nat :: m <= |line| && r == TotalAt(line, m) && forall m': nat :: m' < m ==> TotalAt(line, m').None?
    ensures r.None? <==> NoMatchFrom(line, 0)
    ensures r.Some? ==> exists m: nat :: FirstMatchFrom(line, 0, m) && CapturesAt(line, m, r.value)
  {
    forall m: nat | m <= |line|
      ensures TotalAt(line, m).Some? <==> TotalMatchAt(line, m)
    {
      TotalAtMatches(line, m);
    }
    forall m: nat | |line| < m
      ensures !TotalMatchAt(line, m)
    {
      if TotalMatchAt(line, m) {
        MatchStartsInLine(line, m);
      }
    }
    if r.Some? {
      var m: nat :| m <= |line| && r == TotalAt(line, m)
                    && forall m': nat :: m' < m ==> TotalAt(line, m').None?;
      TotalAtMatches(line, m);
      assert FirstMatchFrom(line, 0, m);
    }
  }

  /** Every match has a colon between the label and the amount, so a line
      without one never yields a total. */
  lemma NoColonNoTotal(line: string)
    requires ':' !in line
    ensures FindTotal(line).None?
  {
    FindTotalSpec(line);
    forall m: nat | TotalMatchAt(line, m)
      ensures false
    {
    }
  }

}
