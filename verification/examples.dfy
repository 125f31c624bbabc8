/** Concrete lines and transcripts, worked through the model.

    Lemmas about a literal line or transcript take it as a parameter fixed by
    a `requires`: the verifier evaluates a literal written in the body at every
    use, which makes these proofs far more expensive than the same facts about
    a variable known to equal it. Transcripts are handled in two steps: facts
    about each literal line, then a lemma over any transcript whose lines have
    those facts. */
module Examples {
  import opened Options
  import opened Text
  import DatePattern
  import TotalPattern
  import ItemPattern
  import Receipts

  /** The description is everything before the last whitespace run, and the
      price is read in cents. */
  lemma ItemWithSpacesInside(line: string)
    requires line == "Milk 2L   4.99"
    ensures ItemPattern.MatchItem(line) == Some(("Milk 2L", 499))
  {
    MilkLine(line);
    ItemPattern.MatchItemAt(line, 7, 10);
    StripKeeps(line[..7]);
    OneDigit(line[10..11]);
    TwoDigits(line[12..]);
  }

  /** The shape of `Milk 2L   4.99`: a description ending at 7, spaces up to 10,
      and the amount `4.99`. */
  lemma MilkLine(line: string)
    requires line == "Milk 2L   4.99"
    ensures ItemPattern.EndsWithAmount(line) && |line| == 14
    ensures !IsSpace(line[6]) && All(line[7..10], IsSpace)
    ensures All(line[10..11], IsDigit)
    ensures line[..7] == "Milk 2L" && line[10..11] == "4" && line[12..] == "99"
  {
  }

  /** The value of a numeral of one digit. */
  lemma OneDigit(s: string)
    requires |s| == 1 && IsDigit(s[0])
    ensures All(s, IsDigit) && DigitsValue(s) == DigitValue(s[0])
  {
    assert s[..0] == [];
  }

  /** The value of a numeral of two digits. */
  lemma TwoDigits(s: string)
    requires |s| == 2 && IsDigit(s[0]) && IsDigit(s[1])
    ensures All(s, IsDigit) && DigitsValue(s) == DigitValue(s[0]) * 10 + DigitValue(s[1])
  {
    OneDigit(s[..1]);
  }

  /** A whitespace run at the very start gives its first character to group 1,
      which is then stripped away. */
  lemma ItemWithoutDescription()
    ensures ItemPattern.MatchItem("  4.99") == Some(("", 499))
  {
    var line := "  4.99";
    SpanBackwardUnique(line, 3, 2, IsDigit);
    SpanBackwardUnique(line, 2, 0, IsSpace);
    assert ItemPattern.DescriptionEnd(line) == 1;
    StripUnique(line[..1], [], []);
    assert line[..1] + [] + [] == line[..1];
    OneDigit(line[2..3]);
    TwoDigits(line[4..]);
  }

  /** A single leading space leaves nothing for group 1, so there is no match. */
  lemma SingleSpaceIsNoItem()
    ensures ItemPattern.MatchItem(" 4.99").None?
  {
    var line := " 4.99";
    SpanBackwardUnique(line, 2, 1, IsDigit);
    SpanBackwardUnique(line, 1, 0, IsSpace);
  }

  /** The amount has to end the line; a trailing carriage return defeats `$`. */
  lemma ItemMustEndTheLine()
    ensures ItemPattern.MatchItem("Tax ID 12.34 applies here").None?
    ensures ItemPattern.MatchItem("Milk 4.99\r").None?
  {
  }

  /** The total pattern is not anchored at the end: the third decimal is ignored. */
  lemma TotalNotAnchored(line: string)
    requires line == "Total: 12.345"
    ensures TotalPattern.FindTotal(line) == Some(1234)
  {
    NotAnchoredMatch(line);
    TotalPattern.MatchAtStart(line, 0, 5, 7, 9);
  }

  /** The match in `Total: 12.345`, which stops before the third decimal. */
  lemma NotAnchoredMatch(line: string)
    requires line == "Total: 12.345"
    ensures TotalPattern.TotalMatchWith(line, 0, 0, 5, 7, 9)
    ensures TotalPattern.AmountOf(line, 7, 9) == 1234
  {
    assert TotalPattern.LabelAt(line, 0, 0);
    TwoDigits(line[7..9]);
    TwoDigits(line[10..12]);
  }

  /** No alternative of the label group starts with any other letter than `t`,
      `a` or `g`, in either case. */
  lemma NoLabelStartsAt(line: string, m: nat)
    requires m < |line| && TotalPattern.Lower(line[m]) != 't' && TotalPattern.Lower(line[m]) != 'a'
    requires TotalPattern.Lower(line[m]) != 'g'
    ensures !TotalPattern.TotalMatchAt(line, m)
  {
    if TotalPattern.TotalMatchAt(line, m) {
      TotalPattern.MatchStartsWithLabel(line, m);
    }
  }

  /** The match inside `SUBTOTAL: 5.00`, and the amount it captures. */
  lemma MatchInsideWord(line: string)
    requires line == "SUBTOTAL: 5.00"
    ensures TotalPattern.TotalMatchWith(line, 3, 0, 8, 10, 11)
    ensures TotalPattern.AmountOf(line, 10, 11) == 500
  {
    assert TotalPattern.LabelAt(line, 3, 0);
    OneDigit(line[10..11]);
    TwoDigits(line[12..14]);
  }

  /** The label may sit inside a longer word, in any case. */
  lemma TotalInsideWord(line: string)
    requires line == "SUBTOTAL: 5.00"
    ensures TotalPattern.FindTotal(line) == Some(500)
  {
    NoLabelStartsAt(line, 0);
    NoLabelStartsAt(line, 1);
    NoLabelStartsAt(line, 2);
    MatchInsideWord(line);
    assert TotalPattern.TotalMatchAt(line, 3);
    TotalPattern.FindTotalSpec(line);
    var m: nat :| TotalPattern.FirstMatchFrom(line, 0, m) && TotalPattern.CapturesAt(line, m, TotalPattern.FindTotal(line).value);
    assert m <= 3;
    assert m != 0 && m != 1 && m != 2;
  }

  /** Without the colon there is no total. */
  lemma TotalNeedsColon(line: string)
    requires line == "Total 5.00"
    ensures TotalPattern.FindTotal(line).None?
  {
    TotalPattern.NoColonNoTotal(line);
  }

  /** The two separators of a date are chosen independently, and the search
      skips the text before the date. */
  lemma MixedSeparators(line: string)
    requires line == "on 12/05-2024"
    ensures DatePattern.FindDate(line) == Some("12/05-2024")
  {
    assert DatePattern.DateAt(line, 3);
    assert !DatePattern.DateAt(line, 0) && !DatePattern.DateAt(line, 1) && !DatePattern.DateAt(line, 2);
    DatePattern.FindDateAt(line, 3);
    assert line[3..13] == "12/05-2024";
  }

  /** A line `d p.qq` whose description `d` has no whitespace at its ends and
      whose amount has one whole digit. */
  lemma OneSpaceItem(line: string, e: nat)
    requires 0 < e && |line| == e + 5
    requires !IsSpace(line[0]) && !IsSpace(line[e - 1]) && IsSpace(line[e])
    requires IsDigit(line[e + 1]) && line[e + 2] == '.' && IsDigit(line[e + 3]) && IsDigit(line[e + 4])
    ensures ItemPattern.MatchItem(line)
            == Some((line[..e], DigitValue(line[e + 1]) * 100 + DigitValue(line[e + 3]) * 10 + DigitValue(line[e + 4])))
  {
    OneDigitPrice(line, e + 1);
    ItemPattern.MatchItemAt(line, e, e + 1);
    StripKeeps(line[..e]);
  }

  /** The amount `p.qq` at the end of a line, with one whole digit at `k`. */
  lemma OneDigitPrice(line: string, k: nat)
    requires |line| == k + 4
    requires IsDigit(line[k]) && line[k + 1] == '.' && IsDigit(line[k + 2]) && IsDigit(line[k + 3])
    ensures ItemPattern.EndsWithAmount(line) && All(line[k..|line| - 3], IsDigit)
    ensures ItemPattern.PriceOf(line, k) == DigitValue(line[k]) * 100 + DigitValue(line[k + 2]) * 10 + DigitValue(line[k + 3])
  {
    OneDigit(line[k..k + 1]);
    TwoDigits(line[k + 2..]);
  }

  /** The lines of a transcript written out as the pieces it joins. */
  lemma LinesOf(text: string, lines: seq<string>)
    requires |lines| >= 1 && Receipts.SplitLines(lines)
    requires text == Join(lines, '\n')
    ensures Receipts.Lines(text) == lines
  {
    SplitJoin(lines, '\n');
  }

  /** An empty transcript is one empty line, and nothing is found in it. */
  lemma EmptyTranscript()
    ensures Receipts.ParseReceiptText("") == Receipts.Receipt(None, [], [], None)
  {
    var lines := Receipts.Lines("");
    assert lines == [""];
    DatePattern.NoSeparatorNoDate("");
    TotalPattern.NoColonNoTotal("");
    assert Receipts.LinePairs(lines) == [];
  }

  /** The total pattern reads `Total: 12.50` as 1250 cents. */
  lemma TotalOfTotalLine(line: string)
    requires line == "Total: 12.50"
    ensures TotalPattern.FindTotal(line) == Some(1250)
  {
    TotalLineMatch(line);
    TotalPattern.MatchAtStart(line, 0, 5, 7, 9);
  }

  /** The match in `Total: 12.50`, and its amount. */
  lemma TotalLineMatch(line: string)
    requires line == "Total: 12.50"
    ensures TotalPattern.TotalMatchWith(line, 0, 0, 5, 7, 9)
    ensures TotalPattern.AmountOf(line, 7, 9) == 1250
  {
    assert TotalPattern.LabelAt(line, 0, 0);
    TwoDigits(line[7..9]);
    TwoDigits(line[10..12]);
  }

  /** The item pattern reads `Total: 12.50` as the item `Total:` at 1250 cents. */
  lemma ItemOfTotalLine(line: string)
    requires line == "Total: 12.50"
    ensures ItemPattern.MatchItem(line) == Some(("Total:", 1250))
  {
    TwoDigits(line[7..9]);
    TwoDigits(line[10..]);
    ItemPattern.MatchItemAt(line, 6, 7);
    assert line[..6] == "Total:";
    StripKeeps(line[..6]);
  }

  /** `Total: 12.50` holds no date. */
  lemma NoDateOnTotalLine(line: string)
    requires line == "Total: 12.50"
    ensures DatePattern.FindDate(line).None?
  {
    assert forall m :: 0 <= m < |line| ==> line[m] != '/' && line[m] != '-';
    DatePattern.NoSeparatorNoDate(line);
  }

  /** `Total: 12.50` both sets the total and is read as the item `Total:`. */
  lemma TotalLineIsAlsoItem(text: string)
    requires text == "Total: 12.50"
    ensures Receipts.ParseReceiptText(text) == Receipts.Receipt(None, ["Total:"], [1250], Some(1250))
  {
    LinesOf(text, [text]);
    TotalOfTotalLine(text);
    ItemOfTotalLine(text);
    NoDateOnTotalLine(text);
    OneLineReceipt(text, ("Total:", 1250));
  }

  /** A transcript of one line without a date that holds an item: the receipt
      has that one item, and the total found on the line if there is one. */
  lemma OneLineReceipt(text: string, p: (string, nat))
    requires Receipts.Lines(text) == [text]
    requires ItemPattern.MatchItem(text) == Some(p)
    requires DatePattern.FindDate(text).None? && TotalPattern.FindTotal(text).Some?
    ensures Receipts.ParseReceiptText(text) == Receipts.Receipt(None, [p.0], [p.1], TotalPattern.FindTotal(text))
  {
    Receipts.LinePairOfOneLine(text);
    PairOfItemLine(text, p);
    assert Receipts.Descriptions([p]) == [p.0] && Receipts.Amounts([p]) == [p.1];
    assert Receipts.FirstDate([text]) == None;
    assert Receipts.LastTotal([text]) == TotalPattern.FindTotal(text);
  }

  /** The total read from `Total: 0.00`. */
  lemma ZeroTotalLine(line: string)
    requires line == "Total: 0.00"
    ensures TotalPattern.FindTotal(line) == Some(0)
  {
    ZeroTotalMatch(line);
    TotalPattern.MatchAtStart(line, 0, 5, 7, 8);
  }

  /** The match in `Total: 0.00`, and its amount. */
  lemma ZeroTotalMatch(line: string)
    requires line == "Total: 0.00"
    ensures TotalPattern.TotalMatchWith(line, 0, 0, 5, 7, 8)
    ensures TotalPattern.AmountOf(line, 7, 8) == 0
  {
    assert TotalPattern.LabelAt(line, 0, 0);
    OneDigit(line[7..8]);
    TwoDigits(line[9..11]);
  }

  /** The item read from `Total: 0.00`. */
  lemma ZeroTotalItem(line: string)
    requires line == "Total: 0.00"
    ensures ItemPattern.MatchItem(line) == Some(("Total:", 0))
  {
    OneSpaceItem(line, 6);
    assert line[..6] == "Total:";
  }

  /** Lines without a colon, which hold no total. */
  lemma NoTotalOn(line: string)
    requires line == "Milk 4.99" || line == "Bread 3.50" || line == "Eggs 2.25"
    ensures TotalPattern.FindTotal(line).None?
  {
    assert forall m :: 0 <= m < |line| ==> line[m] != ':';
    TotalPattern.NoColonNoTotal(line);
  }

  /** The item read from `Milk 4.99`. */
  lemma MilkItem(line: string)
    requires line == "Milk 4.99"
    ensures ItemPattern.MatchItem(line) == Some(("Milk", 499))
  {
    OneSpaceItem(line, 4);
    assert line[..4] == "Milk";
  }

  /** The item read from `Bread 3.50`. */
  lemma BreadItem(line: string)
    requires line == "Bread 3.50"
    ensures ItemPattern.MatchItem(line) == Some(("Bread", 350))
  {
    OneSpaceItem(line, 5);
    assert line[..5] == "Bread";
  }

  /** The item read from `Eggs 2.25`. */
  lemma EggsItem(line: string)
    requires line == "Eggs 2.25"
    ensures ItemPattern.MatchItem(line) == Some(("Eggs", 225))
  {
    OneSpaceItem(line, 4);
    assert line[..4] == "Eggs";
  }

  /** What the loop collects from a transcript of two lines. */
  lemma TwoLines(lines: seq<string>)
    requires |lines| == 2 && Receipts.SplitLines(lines)
    ensures Receipts.LinePairs(lines) == Receipts.LinePair(lines[0]) + Receipts.LinePair(lines[1])
    ensures Receipts.LastTotal(lines)
            == if TotalPattern.FindTotal(lines[1]).Some? then TotalPattern.FindTotal(lines[1]) else TotalPattern.FindTotal(lines[0])
  {
    var a, b := lines[0], lines[1];
    assert lines[1..] == [b] && [b][1..] == [];
    Receipts.LinePairOfOneLine(a);
    Receipts.LinePairOfOneLine(b);
    Receipts.LinePairsAppend([a], [b]);
    assert [a] + [b] == lines;
  }

  /** The lines of a transcript of two lines. */
  lemma TwoLinesOf(text: string, a: string, b: string)
    requires '\n' !in a && '\n' !in b
    requires text == a + "\n" + b
    ensures Receipts.Lines(text) == [a, b]
  {
    var lines := [a, b];
    assert Join(lines[1..], '\n') == b;
    assert text == Join(lines, '\n');
    LinesOf(text, lines);
  }

  /** The first line of the transcript with a zero total: a total and an item. */
  lemma ZeroTotalFirst(text: string)
    requires text == "Total: 0.00\nMilk 4.99"
    ensures |Receipts.Lines(text)| == 2
    ensures TotalPattern.FindTotal(Receipts.Lines(text)[0]) == Some(0)
    ensures ItemPattern.MatchItem(Receipts.Lines(text)[0]) == Some(("Total:", 0))
  {
    TwoLinesOf(text, "Total: 0.00", "Milk 4.99");
    ZeroTotalLine(Receipts.Lines(text)[0]);
    ZeroTotalItem(Receipts.Lines(text)[0]);
  }

  /** The second line of the transcript with a zero total: an item only. */
  lemma ZeroTotalSecond(text: string)
    requires text == "Total: 0.00\nMilk 4.99"
    ensures |Receipts.Lines(text)| == 2
    ensures TotalPattern.FindTotal(Receipts.Lines(text)[1]).None?
    ensures ItemPattern.MatchItem(Receipts.Lines(text)[1]) == Some(("Milk", 499))
  {
    TwoLinesOf(text, "Total: 0.00", "Milk 4.99");
    NoTotalOn(Receipts.Lines(text)[1]);
    MilkItem(Receipts.Lines(text)[1]);
  }

  /** An explicit total of zero is kept: the sum of the prices replaces only a
      missing total, not a zero one. */
  lemma ZeroTotalKept(text: string)
    requires text == "Total: 0.00\nMilk 4.99"
    ensures Receipts.ParseReceiptText(text).total == Some(0)
    ensures Receipts.ParseReceiptText(text).prices == [0, 499]
  {
    ZeroTotalFirst(text);
    ZeroTotalSecond(text);
    ZeroTotalOfLines(text);
  }

  /** Any transcript of two lines read as those of the zero-total example. */
  lemma ZeroTotalOfLines(text: string)
    requires |Receipts.Lines(text)| == 2
    requires TotalPattern.FindTotal(Receipts.Lines(text)[0]) == Some(0)
    requires ItemPattern.MatchItem(Receipts.Lines(text)[0]) == Some(("Total:", 0))
    requires TotalPattern.FindTotal(Receipts.Lines(text)[1]).None?
    requires ItemPattern.MatchItem(Receipts.Lines(text)[1]) == Some(("Milk", 499))
    ensures Receipts.ParseReceiptText(text).total == Some(0)
    ensures Receipts.ParseReceiptText(text).prices == [0, 499]
  {
    TwoLineReceipt(text, ("Total:", 0), ("Milk", 499));
  }

  /** A transcript of two lines that both hold an item: the items and prices
      are those of the two lines in order, and the total line that counts is
      the later one. */
  lemma TwoLineReceipt(text: string, p0: (string, nat), p1: (string, nat))
    requires |Receipts.Lines(text)| == 2
    requires ItemPattern.MatchItem(Receipts.Lines(text)[0]) == Some(p0)
    requires ItemPattern.MatchItem(Receipts.Lines(text)[1]) == Some(p1)
    ensures Receipts.ParseReceiptText(text).items == [p0.0, p1.0]
    ensures Receipts.ParseReceiptText(text).prices == [p0.1, p1.1]
    ensures var lines := Receipts.Lines(text);
            Receipts.LastTotal(lines)
            == if TotalPattern.FindTotal(lines[1]).Some? then TotalPattern.FindTotal(lines[1]) else TotalPattern.FindTotal(lines[0])
  {
    var lines := Receipts.Lines(text);
    TwoLines(lines);
    TwoItems(lines, p0, p1);
  }

  /** The items and prices collected from two lines that both hold an item. */
  lemma TwoItems(lines: seq<string>, p0: (string, nat), p1: (string, nat))
    requires |lines| == 2 && Receipts.SplitLines(lines)
    requires ItemPattern.MatchItem(lines[0]) == Some(p0) && ItemPattern.MatchItem(lines[1]) == Some(p1)
    ensures Receipts.Descriptions(Receipts.LinePairs(lines)) == [p0.0, p1.0]
    ensures Receipts.Amounts(Receipts.LinePairs(lines)) == [p0.1, p1.1]
  {
    TwoLines(lines);
    PairOfItemLine(lines[0], p0);
    PairOfItemLine(lines[1], p1);
    FieldsOfTwo(p0, p1);
  }

  /** A line that holds an item contributes exactly that pair. */
  lemma PairOfItemLine(line: string, p: (string, nat))
    requires '\n' !in line && ItemPattern.MatchItem(line) == Some(p)
    ensures Receipts.LinePair(line) == [p]
  {
  }

  /** The descriptions and prices of a list of two pairs. */
  lemma FieldsOfTwo(p0: (string, nat), p1: (string, nat))
    ensures Receipts.Descriptions([p0] + [p1]) == [p0.0, p1.0]
    ensures Receipts.Amounts([p0] + [p1]) == [p0.1, p1.1]
  {
    assert [p0] + [p1] == [p0, p1];
  }

  /** The first line of the transcript without a total line. */
  lemma FallbackFirst(text: string)
    requires text == "Bread 3.50\nEggs 2.25"
    ensures |Receipts.Lines(text)| == 2
    ensures TotalPattern.FindTotal(Receipts.Lines(text)[0]).None?
    ensures ItemPattern.MatchItem(Receipts.Lines(text)[0]) == Some(("Bread", 350))
  {
    TwoLinesOf(text, "Bread 3.50", "Eggs 2.25");
    NoTotalOn(Receipts.Lines(text)[0]);
    BreadItem(Receipts.Lines(text)[0]);
  }

  /** The second line of the transcript without a total line. */
  lemma FallbackSecond(text: string)
    requires text == "Bread 3.50\nEggs 2.25"
    ensures |Receipts.Lines(text)| == 2
    ensures TotalPattern.FindTotal(Receipts.Lines(text)[1]).None?
    ensures ItemPattern.MatchItem(Receipts.Lines(text)[1]) == Some(("Eggs", 225))
  {
    TwoLinesOf(text, "Bread 3.50", "Eggs 2.25");
    NoTotalOn(Receipts.Lines(text)[1]);
    EggsItem(Receipts.Lines(text)[1]);
  }

  /** With no total line, the total is the sum of the prices. */
  lemma FallbackSum(text: string)
    requires text == "Bread 3.50\nEggs 2.25"
    ensures Receipts.ParseReceiptText(text).items == ["Bread", "Eggs"]
    ensures Receipts.ParseReceiptText(text).prices == [350, 225]
    ensures Receipts.ParseReceiptText(text).total == Some(575)
  {
    FallbackFirst(text);
    FallbackSecond(text);
    FallbackOfLines(text);
  }

  /** Any transcript of two lines read as those of the fallback example. */
  lemma FallbackOfLines(text: string)
    requires |Receipts.Lines(text)| == 2
    requires TotalPattern.FindTotal(Receipts.Lines(text)[0]).None?
    requires ItemPattern.MatchItem(Receipts.Lines(text)[0]) == Some(("Bread", 350))
    requires TotalPattern.FindTotal(Receipts.Lines(text)[1]).None?
    requires ItemPattern.MatchItem(Receipts.Lines(text)[1]) == Some(("Eggs", 225))
    ensures Receipts.ParseReceiptText(text).items == ["Bread", "Eggs"]
    ensures Receipts.ParseReceiptText(text).prices == [350, 225]
    ensures Receipts.ParseReceiptText(text).total == Some(575)
  {
    TwoLineReceipt(text, ("Bread", 350), ("Eggs", 225));
    assert Receipts.Sum([350, 225]) == 575;
  }

  /** The match of the third label in `Grand Total: 13.75`, and its amount. */
  lemma GrandTotalMatch(line: string)
    requires line == "Grand Total: 13.75"
    ensures TotalPattern.TotalMatchWith(line, 0, 2, 11, 13, 15)
    ensures TotalPattern.AmountOf(line, 13, 15) == 1375
  {
    assert TotalPattern.LabelAt(line, 0, 2);
    TwoDigits(line[13..15]);
    TwoDigits(line[16..18]);
  }

  /** The total pattern reads `Grand Total: 13.75`, through its third label, as 1375 cents. */
  lemma GrandTotalLine(line: string)
    requires line == "Grand Total: 13.75"
    ensures TotalPattern.FindTotal(line) == Some(1375)
  {
    GrandTotalMatch(line);
    TotalPattern.MatchAtStart(line, 2, 11, 13, 15);
  }

  /** The item pattern reads `Grand Total: 13.75` as the item `Grand Total:`. */
  lemma GrandTotalItem(line: string)
    requires line == "Grand Total: 13.75"
    ensures ItemPattern.MatchItem(line) == Some(("Grand Total:", 1375))
  {
    TwoDigits(line[13..15]);
    TwoDigits(line[16..]);
    ItemPattern.MatchItemAt(line, 12, 13);
    assert line[..12] == "Grand Total:";
    StripKeeps(line[..12]);
  }

  /** Of two total lines the later one wins, whatever its label. */
  lemma LaterTotalWins(a: string, b: string)
    requires a == "Total: 12.50" && b == "Grand Total: 13.75"
    ensures Receipts.ParseReceiptText(a + "\n" + b).total == Some(1375)
  {
    TwoLinesOf(a + "\n" + b, a, b);
    LaterTotalOfLines(a + "\n" + b, a, b);
  }

  /** Any transcript whose lines are those of the two-totals example. */
  lemma LaterTotalOfLines(text: string, a: string, b: string)
    requires a == "Total: 12.50" && b == "Grand Total: 13.75"
    requires Receipts.Lines(text) == [a, b]
    ensures Receipts.ParseReceiptText(text).total == Some(1375)
  {
    ItemOfTotalLine(a);
    GrandTotalLine(b);
    GrandTotalItem(b);
    TwoLineReceipt(text, ("Total:", 1250), ("Grand Total:", 1375));
  }

  /** The lines of a transcript of three lines. */
  lemma ThreeLinesOf(text: string, a: string, b: string, c: string)
    requires '\n' !in a && '\n' !in b && '\n' !in c
    requires text == a + "\n" + b + "\n" + c
    ensures Receipts.Lines(text) == [a, b, c]
  {
    var lines := [a, b, c];
    assert lines[1..][1..] == [c];
    assert Join(lines[1..], '\n') == b + "\n" + c;
    assert text == Join(lines, '\n');
    LinesOf(text, lines);
  }

  /** `01/02-2024` is found at the start of its line. */
  lemma DateLine(line: string)
    requires line == "01/02-2024"
    ensures DatePattern.FindDate(line) == Some("01/02-2024")
  {
    assert DatePattern.DateAt(line, 0);
    DatePattern.FindDateAt(line, 0);
    assert line[0..10] == line;
  }

  /** The earliest line with a date decides it; a later date is ignored. */
  lemma EarlierDateWins(a: string, b: string, c: string)
    requires a == "Store" && b == "01/02-2024" && c == "03/04/2025"
    ensures Receipts.ParseReceiptText(a + "\n" + b + "\n" + c).date == Some("01/02-2024")
  {
    ThreeLinesOf(a + "\n" + b + "\n" + c, a, b, c);
    EarlierDateOfLines(a + "\n" + b + "\n" + c, a, b, c);
  }

  /** Any transcript whose lines are those of the two-dates example. */
  lemma EarlierDateOfLines(text: string, a: string, b: string, c: string)
    requires a == "Store" && b == "01/02-2024" && c == "03/04/2025"
    requires Receipts.Lines(text) == [a, b, c]
    ensures Receipts.ParseReceiptText(text).date == Some("01/02-2024")
  {
    DatePattern.NoSeparatorNoDate(a);
    DateLine(b);
    var lines := Receipts.Lines(text);
    assert lines[1..][0] == b;
    assert Receipts.FirstDate(lines) == Receipts.FirstDate(lines[1..]);
  }

}
