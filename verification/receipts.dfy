/** `parse_receipt_text`: one pass over the lines of an OCR transcript that runs
    the three extractors on every line, followed by the fallback that sums the
    prices when no total line was found. Amounts are whole cents. */
module Receipts {
  import opened Options
  import opened Text
  import DatePattern
  import TotalPattern
  import ItemPattern

  /** The record the parser returns, with the fields `Date`, `Items`, `Prices`
      and `Total`; the same shape holds the loop's running state. */
  datatype Receipt = Receipt(date: Option<string>, items: seq<string>, prices: seq<nat>, total: Option<nat>)

  /** The state before the first line: no date, no total, empty lists. */
  const Start: Receipt := Receipt(None, [], [], None)

  /** Python's `not date`: true of `None` and of the empty string. */
  predicate Falsy(date: Option<string>)
  {
    date.None? || date.value == ""
  }

  /** The lines of a transcript, none of which holds the line separator. */
  predicate SplitLines(lines: seq<string>)
  {
    forall j :: 0 <= j < |lines| ==> '\n' !in lines[j]
  }

  /** `text.split('\n')`. */
  function Lines(text: string): (lines: seq<string>)
    ensures SplitLines(lines)
  {
    Split(text, '\n')
  }

  /** One iteration of the loop body: the date only while none is held and only
      on a match, the total on every match, and a pair on every item match. */
  function Step(acc: Receipt, line: string): Receipt
    requires '\n' !in line
  {
    var found := DatePattern.FindDate(line);
    var date := if Falsy(acc.date) && found.Some? then found else acc.date;
    var explicit := TotalPattern.FindTotal(line);
    var total := if explicit.Some? then explicit else acc.total;
    match ItemPattern.MatchItem(line)
    case Some((item, price)) => Receipt(date, acc.items + [item], acc.prices + [price], total)
    case None => Receipt(date, acc.items, acc.prices, total)
  }

  /** The `for line in lines` loop, continuing from the state `acc`. */
  function Scan(acc: Receipt, lines: seq<string>): Receipt
    requires SplitLines(lines)
    decreases |lines|
  {
    if |lines| == 0 then acc else Scan(Step(acc, lines[0]), lines[1..])
  }

  /** `sum(prices)`, exactly. */
  function Sum(prices: seq<nat>): nat
  {
    if |prices| == 0 then 0 else prices[0] + Sum(prices[1..])
  }

  /** The step after the loop: with no total and some prices, the total is their sum. */
  function Reconcile(acc: Receipt): Receipt
  {
    if acc.total.None? && |acc.prices| > 0 then acc.(total := Some(Sum(acc.prices))) else acc
  }

  // Reference definitions, stated line by line rather than as a running state.

  /** The date found on the earliest line that has one. */
  function FirstDate(lines: seq<string>): (r: Option<string>)
    ensures r.None? <==> forall j :: 0 <= j < |lines| ==> DatePattern.FindDate(lines[j]).None?
    ensures r.Some? ==> exists j :: 0 <= j < |lines| && r == DatePattern.FindDate(lines[j])
                                    && forall j' :: 0 <= j' < j ==> DatePattern.FindDate(lines[j']).None?
  {
    if |lines| == 0 then
      None
    else if DatePattern.FindDate(lines[0]).Some? then
      DatePattern.FindDate(lines[0])
    else
      var r := FirstDate(lines[1..]);
      if r.Some? then
        var j :| 0 <= j < |lines| - 1 && r == DatePattern.FindDate(lines[1..][j])
                 && forall j' :: 0 <= j' < j ==> DatePattern.FindDate(lines[1..][j']).None?;
        assert lines[1..][j] == lines[j + 1];
        assert forall j' :: 0 <= j' < j + 1 ==> DatePattern.FindDate(lines[j']).None? by {
          forall j' | 0 < j' < j + 1
            ensures DatePattern.FindDate(lines[j']).None?
          {
            assert lines[1..][j' - 1] == lines[j'];
          }
        }
        r
      else
        assert forall j :: 0 <= j < |lines| ==> DatePattern.FindDate(lines[j]).None? by {
          forall j | 0 < j < |lines|
            ensures DatePattern.FindDate(lines[j]).None?
          {
            assert lines[1..][j - 1] == lines[j];
          }
        }
        r
  }

  /** The total found on the last line that has one. */
  function LastTotal(lines: seq<string>): (r: Option<nat>)
    ensures r.None? <==> forall j :: 0 <= j < |lines| ==> TotalPattern.FindTotal(lines[j]).None?
    ensures r.Some? ==> exists j :: 0 <= j < |lines| && r == TotalPattern.FindTotal(lines[j])
                                    && forall j' :: j < j' < |lines| ==> TotalPattern.FindTotal(lines[j']).None?
  {
    if |lines| == 0 then
      None
    else
      var later := LastTotal(lines[1..]);
      if later.Some? then
        var j :| 0 <= j < |lines| - 1 && later == TotalPattern.FindTotal(lines[1..][j])
                 && forall j' :: j < j' < |lines| - 1 ==> TotalPattern.FindTotal(lines[1..][j']).None?;
        assert lines[1..][j] == lines[j + 1];
        assert forall j' :: j + 1 < j' < |lines| ==> TotalPattern.FindTotal(lines[j']).None? by {
          forall j' | j + 1 < j' < |lines|
            ensures TotalPattern.FindTotal(lines[j']).None?
          {
            assert lines[1..][j' - 1] == lines[j'];
          }
        }
        later
      else
        assert forall j :: 0 < j < |lines| ==> TotalPattern.FindTotal(lines[j]).None? by {
          forall j | 0 < j < |lines|
            ensures TotalPattern.FindTotal(lines[j]).None?
          {
            assert lines[1..][j - 1] == lines[j];
          }
        }
        TotalPattern.FindTotal(lines[0])
  }

  /** The pair a single line contributes: none, or the one its item match gives. */
  function LinePair(line: string): seq<(string, nat)>
    requires '\n' !in line
  {
    match ItemPattern.MatchItem(line)
    case Some(pair) => [pair]
    case None => []
  }

  /** The pairs of all lines, in line order. */
  function LinePairs(lines: seq<string>): (r: seq<(string, nat)>)
    requires SplitLines(lines)
    ensures |r| <= |lines|
  {
    if |lines| == 0 then [] else LinePair(lines[0]) + LinePairs(lines[1..])
  }

  /** Every pair is the item match of some line. */
  lemma {:induction false} LinePairsFromLines(lines: seq<string>)
    requires SplitLines(lines)
    ensures forall m :: 0 <= m < |LinePairs(lines)| ==>
              exists j :: 0 <= j < |lines| && ItemPattern.MatchItem(lines[j]) == Some(LinePairs(lines)[m])
    decreases |lines|
  {
    if |lines| > 0 {
      var first := LinePair(lines[0]);
      var rest := LinePairs(lines[1..]);
      var r := LinePairs(lines);
      assert r == first + rest;
      LinePairsFromLines(lines[1..]);
      forall m | 0 <= m < |LinePairs(lines)|
        ensures exists j :: 0 <= j < |lines| && ItemPattern.MatchItem(lines[j]) == Some(LinePairs(lines)[m])
      {
        if m < |first| {
          assert ItemPattern.MatchItem(lines[0]) == Some(r[m]);
        } else {
          assert r[m] == rest[m - |first|];
          var j :| 0 <= j < |lines| - 1 && ItemPattern.MatchItem(lines[1..][j]) == Some(rest[m - |first|]);
          assert lines[1..][j] == lines[j + 1];
        }
      }
    } else {
      assert LinePairs(lines) == [];
    }
  }

  /** The descriptions of a list of pairs. */
  function Descriptions(pairs: seq<(string, nat)>): (r: seq<string>)
    ensures |r| == |pairs|
  {
    seq(|pairs|, m requires 0 <= m < |pairs| => pairs[m].0)
  }

  /** The prices of a list of pairs. */
  function Amounts(pairs: seq<(string, nat)>): (r: seq<nat>)
    ensures |r| == |pairs|
  {
    seq(|pairs|, m requires 0 <= m < |pairs| => pairs[m].1)
  }

  /** The pairs of consecutive stretches of lines follow one another. */
  lemma {:induction false} LinePairsAppend(a: seq<string>, b: seq<string>)
    requires SplitLines(a) && SplitLines(b)
    ensures SplitLines(a + b)
    ensures LinePairs(a + b) == LinePairs(a) + LinePairs(b)
    decreases |a|
  {
    if |a| == 0 {
      assert a + b == b;
    } else {
      assert (a + b)[0] == a[0] && (a + b)[1..] == a[1..] + b;
      LinePairsAppend(a[1..], b);
      var first := LinePair(a[0]);
      assert LinePairs(a + b) == first + LinePairs(a[1..] + b);
      AppendAssociates(first, LinePairs(a[1..]), LinePairs(b));
    }
  }

  /** Each line contributes at most one pair, and it is the line's own item match. */
  lemma LinePairOfOneLine(line: string)
    requires '\n' !in line
    ensures SplitLines([line])
    ensures LinePairs([line]) == LinePair(line)
    ensures |LinePairs([line])| <= 1
  {
    assert [line][1..] == [];
  }

  /** Descriptions and prices of concatenated pair lists are concatenated. */
  lemma PairFieldsAppend(a: seq<(string, nat)>, b: seq<(string, nat)>)
    ensures Descriptions(a + b) == Descriptions(a) + Descriptions(b)
    ensures Amounts(a + b) == Amounts(a) + Amounts(b)
  {
  }

  /** One loop iteration appends the line's pair, if any, to both lists. */
  lemma StepItems(acc: Receipt, line: string)
    requires '\n' !in line
    ensures Step(acc, line).items == acc.items + Descriptions(LinePair(line))
    ensures Step(acc, line).prices == acc.prices + Amounts(LinePair(line))
  {
    match ItemPattern.MatchItem(line)
    case Some(pair) =>
      assert LinePair(line) == [pair];
      assert Descriptions([pair]) == [pair.0] && Amounts([pair]) == [pair.1];
    case None =>
      assert acc.items + [] == acc.items && acc.prices + [] == acc.prices;
  }

  /** The pairs of a non-empty stretch of lines are those of its first line
      followed by those of the rest, field by field. */
  lemma PairFieldsOfFirstLine(lines: seq<string>)
    requires SplitLines(lines) && |lines| > 0
    ensures Descriptions(LinePairs(lines)) == Descriptions(LinePair(lines[0])) + Descriptions(LinePairs(lines[1..]))
    ensures Amounts(LinePairs(lines)) == Amounts(LinePair(lines[0])) + Amounts(LinePairs(lines[1..]))
  {
    PairFieldsAppend(LinePair(lines[0]), LinePairs(lines[1..]));
  }

  /** From any state the loop appends the descriptions and prices of the line
      pairs, in order, to the lists it already holds. */
  lemma {:induction false} ScanItems(acc: Receipt, lines: seq<string>)
    requires SplitLines(lines)
    ensures Scan(acc, lines).items == acc.items + Descriptions(LinePairs(lines))
    ensures Scan(acc, lines).prices == acc.prices + Amounts(LinePairs(lines))
    decreases |lines|
  {
    if |lines| == 0 {
      assert acc.items + [] == acc.items && acc.prices + [] == acc.prices;
    } else {
      ScanItems(Step(acc, lines[0]), lines[1..]);
      StepItems(acc, lines[0]);
      PairFieldsOfFirstLine(lines);
      AppendAssociates(acc.items, Descriptions(LinePair(lines[0])), Descriptions(LinePairs(lines[1..])));
      AppendAssociates(acc.prices, Amounts(LinePair(lines[0])), Amounts(LinePairs(lines[1..])));
    }
  }

  /** Concatenation is associative. */
  lemma AppendAssociates<T>(a: seq<T>, b: seq<T>, c: seq<T>)
    ensures a + b + c == a + (b + c)
  {
  }

  /** From any state the loop keeps a date it already holds, and otherwise takes
      the date of the earliest line that has one. */
  lemma {:induction false} ScanDate(acc: Receipt, lines: seq<string>)
    requires SplitLines(lines)
    ensures Scan(acc, lines).date == if Falsy(acc.date) && FirstDate(lines).Some? then FirstDate(lines) else acc.date
    decreases |lines|
  {
    if |lines| > 0 {
      var next := Step(acc, lines[0]);
      ScanDate(next, lines[1..]);
      DatePattern.FindDateSpec(lines[0]);
    }
  }

  /** From any state the loop ends with the total of the last line that has one,
      and otherwise with the total it started with. */
  lemma {:induction false} ScanTotal(acc: Receipt, lines: seq<string>)
    requires SplitLines(lines)
    ensures Scan(acc, lines).total == if LastTotal(lines).Some? then LastTotal(lines) else acc.total
    decreases |lines|
  {
    if |lines| > 0 {
      ScanTotal(Step(acc, lines[0]), lines[1..]);
    }
  }

  /** Once a date is held, no later line changes it. */
  lemma DateNeverOverwritten(acc: Receipt, lines: seq<string>)
    requires SplitLines(lines)
    requires !Falsy(acc.date)
    ensures Scan(acc, lines).date == acc.date
  {
    ScanDate(acc, lines);
  }

  /** `parse_receipt_text(text)`. */
  function ParseReceiptText(text: string): (r: Receipt)
    ensures |r.items| == |r.prices|
    ensures r.items == Descriptions(LinePairs(Lines(text)))
    ensures r.prices == Amounts(LinePairs(Lines(text)))
    ensures r.date == FirstDate(Lines(text))
    ensures LastTotal(Lines(text)).Some? ==> r.total == LastTotal(Lines(text))
    ensures LastTotal(Lines(text)).None? && |r.prices| > 0 ==> r.total == Some(Sum(r.prices))
    ensures LastTotal(Lines(text)).None? && |r.prices| == 0 ==> r.total.None?
  {
    var lines := Lines(text);
    ScanItems(Start, lines);
    ScanDate(Start, lines);
    ScanTotal(Start, lines);
    assert [] + Descriptions(LinePairs(lines)) == Descriptions(LinePairs(lines));
    assert [] + Amounts(LinePairs(lines)) == Amounts(LinePairs(lines));
    Reconcile(Scan(Start, lines))
  }

  /** The i-th item and the i-th price come from one and the same line. */
  lemma ItemsAlignWithPrices(text: string)
    ensures var r := ParseReceiptText(text);
            forall m :: 0 <= m < |r.items| ==>
              exists j :: 0 <= j < |Lines(text)| && ItemPattern.MatchItem(Lines(text)[j]) == Some((r.items[m], r.prices[m]))
  {
    var r := ParseReceiptText(text);
    var lines := Lines(text);
    var pairs := LinePairs(lines);
    LinePairsFromLines(lines);
    forall m | 0 <= m < |r.items|
      ensures exists j :: 0 <= j < |lines| && ItemPattern.MatchItem(lines[j]) == Some((r.items[m], r.prices[m]))
    {
      assert r.items[m] == Descriptions(pairs)[m] == pairs[m].0;
      assert r.prices[m] == Amounts(pairs)[m] == pairs[m].1;
      var j :| 0 <= j < |lines| && ItemPattern.MatchItem(lines[j]) == Some(pairs[m]);
    }
  }

}
