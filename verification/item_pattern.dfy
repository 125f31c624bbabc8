/** The item extractor: `re.search` of `(.+?)\s+(\d+\.\d{2})$` on one line.
    A line yields a pair when it ends with an amount that follows a whitespace
    run which itself has at least one character before it; the description is
    the lazily matched group 1, stripped, and the price is group 2. */
module ItemPattern {
  import opened Options
  import opened Text

  /** The line ends in `\d\.\d\d`: a digit run must end at `|line| - 3`. */
  predicate EndsWithAmount(line: string)
  {
    && 3 <= |line|
    && line[|line| - 3] == '.' && IsDigit(line[|line| - 2]) && IsDigit(line[|line| - 1])
  }

  /** A match of the whole pattern that starts at `s`, whose lazy group 1 is
      `line[s..e]`, whose `\s+` is `line[e..k]`, and whose `\d+` is
      `line[k..|line| - 3]`; `$` pins the two decimals to the end of the line. */
  ghost predicate ItemMatchWith(line: string, s: nat, e: nat, k: nat)
  {
    && EndsWithAmount(line)
    && s < e < k < |line| - 3
    && All(line[e..k], IsSpace)
    && All(line[k..|line| - 3], IsDigit)
  }

  /** The cents of the trailing amount whose digits start at `k`. */
  function PriceOf(line: string, k: nat): nat
    requires EndsWithAmount(line) && k <= |line| - 3
    requires All(line[k..|line| - 3], IsDigit)
  {
    assert All(line[|line| - 2..], IsDigit);
    Cents(line[k..|line| - 3], line[|line| - 2..])
  }

  /** Where group 2 starts: the beginning of the digit run before the final point. */
  function PriceStart(line: string): nat
    requires EndsWithAmount(line)
  {
    SpanBackward(line, |line| - 3, IsDigit)
  }

  /** Where the lazy group 1 stops: the beginning of the whitespace run before the
      digits, except that group 1 needs at least one character, so a run that
      starts the line gives up its first character to group 1. */
  function DescriptionEnd(line: string): nat
    requires EndsWithAmount(line)
  {
    var w := SpanBackward(line, PriceStart(line), IsSpace);
    if w == 0 then 1 else w
  }

  /** Every match, from any start, uses the same digits, and its group 1 ends no
      earlier than `DescriptionEnd`. */
  lemma ItemMatchPinned(line: string, s: nat, e: nat, k: nat)
    requires ItemMatchWith(line, s, e, k)
    ensures k == PriceStart(line)
    ensures DescriptionEnd(line) <= e
  {
    assert line[e..k][k - 1 - e] == line[k - 1];
    SpanBackwardUnique(line, |line| - 3, k, IsDigit);
    SpanBackwardLeast(line, k, e, IsSpace);
  }

  /** When the computed split points are in order, they form a match from the first character. */
  lemma ComputedIsMatch(line: string)
    requires EndsWithAmount(line)
    requires DescriptionEnd(line) < PriceStart(line) < |line| - 3
    ensures ItemMatchWith(line, 0, DescriptionEnd(line), PriceStart(line))
  {
    var k := PriceStart(line);
    var w := SpanBackward(line, k, IsSpace);
    if w == 0 {
      assert forall m :: 1 <= m < k ==> line[1..k][m - 1] == line[0..k][m];
    }
  }

  /** `item_price_pattern.search(line)`, with group 1 stripped: the description
      and price of the line, if it has them. */
  function MatchItem(line: string): Option<(string, nat)>
  {
    if EndsWithAmount(line) && DescriptionEnd(line) < PriceStart(line) < |line| - 3 then
      Some((Strip(line[..DescriptionEnd(line)]), PriceOf(line, PriceStart(line))))
    else
      None
  }

  /** A line whose description ends at `e` on a non-space character, followed by
      whitespace up to `k` and digits from `k` on, yields the description before
      `e`, stripped, and the amount from `k`. */
  lemma MatchItemAt(line: string, e: nat, k: nat)
    requires EndsWithAmount(line) && 0 < e < k < |line| - 3
    requires !IsSpace(line[e - 1]) && All(line[e..k], IsSpace)
    requires All(line[k..|line| - 3], IsDigit)
    ensures MatchItem(line) == Some((Strip(line[..e]), PriceOf(line, k)))
  {
    assert line[e..k][k - 1 - e] == line[k - 1];
    assert !IsDigit(line[k - 1]);
    SpanBackwardUnique(line, |line| - 3, k, IsDigit);
    SpanBackwardUnique(line, k, e, IsSpace);
  }

  /** What `MatchItem` computes is what the pattern does on a line: there is a
      pair exactly when some match exists; the search then succeeds from the
      first character, the lazy group 1 ends as early as any match allows, every
      match uses the same digits, and the pair is group 1 stripped with the
      amount of group 2. Lines come from splitting at `\n`, so `.` matches every
      character and `$` is the end of the line. */
  lemma MatchItemSpec(line: string)
    requires '\n' !in line
    ensures MatchItem(line).Some? <==> exists s: nat, e: nat, k: nat :: ItemMatchWith(line, s, e, k)
    ensures MatchItem(line).Some? ==>
              exists e: nat, k: nat ::
                && ItemMatchWith(line, 0, e, k)
                && (forall s': nat, e': nat, k': nat :: ItemMatchWith(line, s', e', k') ==> e <= e' && k' == k)
                && MatchItem(line).value == (Strip(line[..e]), PriceOf(line, k))
  {
    if EndsWithAmount(line) && DescriptionEnd(line) < PriceStart(line) < |line| - 3 {
      var e := DescriptionEnd(line);
      var k := PriceStart(line);
      ComputedIsMatch(line);
      forall s': nat, e': nat, k': nat | ItemMatchWith(line, s', e', k')
        ensures e <= e' && k' == k
      {
        ItemMatchPinned(line, s', e', k');
      }
    } else {
      forall s: nat, e: nat, k: nat | ItemMatchWith(line, s, e, k)
        ensures false
      {
        ItemMatchPinned(line, s, e, k);
      }
    }
  }

}
