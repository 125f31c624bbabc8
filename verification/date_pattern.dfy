/** The date extractor: `re.search` of `(\d{2}[/-]\d{2}[/-]\d{4})` on one line.
    The two separator positions are independent classes, so `12/05-2024` is a
    date as far as the parser is concerned; no calendar check is made. */
module DatePattern {
  import opened Options
  import opened Text
  import opened Search

  /** Fixed width of every date match. */
  const DateWidth: nat := 10

  predicate IsDateSep(c: char)
  {
    c == '/' || c == '-'
  }

  /** `w` is a whole match of `\d{2}[/-]\d{2}[/-]\d{4}`. */
  predicate IsDate(w: string)
  {
    && |w| == DateWidth
    && IsDigit(w[0]) && IsDigit(w[1]) && IsDateSep(w[2])
    && IsDigit(w[3]) && IsDigit(w[4]) && IsDateSep(w[5])
    && IsDigit(w[6]) && IsDigit(w[7]) && IsDigit(w[8]) && IsDigit(w[9])
  }

  /** The pattern matches `line` starting at position `m`. */
  predicate DateAt(line: string, m: nat)
  {
    m + DateWidth <= |line| && IsDate(line[m..m + DateWidth])
  }

  /** The pattern tried at the single start position `m`. */
  function DateStartingAt(line: string, m: nat): Option<string>
  {
    if DateAt(line, m) then Some(line[m..m + DateWidth]) else None
  }

  /** `date_pattern.search(line)`: the leftmost date in the line, if any. */
  function FindDate(line: string): Option<string>
  {
    Leftmost((m: nat) => DateStartingAt(line, m), 0, |line|)
  }

  /** `FindDate` is `re.search`: no date is found exactly when none occurs in the
      line, and otherwise the result is the text of the leftmost occurrence, ten
      characters of the date shape. */
  lemma FindDateSpec(line: string)
    ensures FindDate(line).None? <==> forall m: nat :: !DateAt(line, m)
    ensures FindDate(line).Some? ==> IsDate(FindDate(line).value)
    ensures FindDate(line).Some? ==>
              exists m: nat :: DateAt(line, m) && FindDate(line).value == line[m..m + DateWidth]
                               && forall m': nat :: m' < m ==> !DateAt(line, m')
  {
    var attempt := (m: nat) => DateStartingAt(line, m);
    LeftmostSpec(attempt, 0, |line|);
    assert forall m: nat :: attempt(m).None? <==> !DateAt(line, m);
    if FindDate(line).Some? {
      var m: nat :| m <= |line| && FindDate(line) == attempt(m) && forall m': nat :: m' < m ==> attempt(m').None?;
      assert DateAt(line, m);
    }
  }

  /** A date with none before it is the one found. */
  lemma FindDateAt(line: string, m: nat)
    requires DateAt(line, m)
    requires forall m': nat :: m' < m ==> !DateAt(line, m')
    ensures FindDate(line) == Some(line[m..m + DateWidth])
  {
    FindDateSpec(line);
    var k: nat :| DateAt(line, k) && FindDate(line).value == line[k..k + DateWidth]
                  && forall m': nat :: m' < k ==> !DateAt(line, m');
    assert k == m;
  }

  /** Every date holds a separator, so a line with neither `/` nor `-` has none. */
  lemma NoSeparatorNoDate(line: string)
    requires '/' !in line && '-' !in line
    ensures FindDate(line).None?
  {
    FindDateSpec(line);
    forall m: nat | DateAt(line, m)
      ensures false
    {
    }
  }

}
