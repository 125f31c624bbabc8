# Receipt text parser, modelled in Dafny

This project models `parse_receipt_text` in `backend/app.py` of the receipt
analyzer. The function takes the OCR transcript of a receipt and returns a
record with four fields:

- `Date`: an optional string;
- `Items`: a list of descriptions;
- `Prices`: a list of amounts;
- `Total`: an optional amount.

It splits the transcript at `\n` and makes one pass over the lines. On each
line it runs three regular expressions with `re.search`:

- a date pattern, which is used only while no date is held;
- a case-insensitive total pattern, where the last line that matches wins;
- an item pattern, which appends a description and a price.

After the loop, if no total line was found and there are prices, the total is
their sum.

The model is functional:

- `Text` holds the character classes `\s` and `\d`, greedy runs, `str.strip()`,
  `str.split`/`join`, and the value of an amount in whole cents.
- `Search` gives `re.search`'s leftmost-first semantics once, as `Leftmost`.
  It is used for the start positions of the date and total searches and for
  the ordered alternation `(Total|Amount Due|Grand Total)`. The item search
  needs no such scan: `ItemPattern.MatchItemSpec` shows that whenever the item
  pattern matches a line, it matches from the first character.
- `DatePattern`, `TotalPattern` and `ItemPattern` each hold one pattern:
  - a declarative description of what a match is (`DateAt`, `TotalMatchWith`,
    `ItemMatchWith`);
  - the search as the matcher runs it (`FindDate`, `FindTotal`, `MatchItem`);
  - a lemma tying the two together.
- `Receipts` holds the loop as a fold (`Step`, `Scan`), the fallback
  (`Reconcile`) and `ParseReceiptText`. Its contract is stated against
  line-by-line reference definitions:
  - `FirstDate`: the date of the earliest line that has one;
  - `LastTotal`: the total of the last line that has one;
  - `LinePairs`: the item pairs of all lines, in order.
- `Examples` works concrete lines and transcripts through the model.

Two details of the patterns:

- The two separators of a date are independent `[/-]` classes, so
  `12/05-2024` is a date (backend/app.py:144).
- The colon of a total line is mandatory (backend/app.py:145).

Amounts are exact whole cents, not floats. Digits and case folding are ASCII.
Whitespace is the fixed set that Python's `str.isspace()` accepts.

## Model

| member | source | states |
|---|---|---|
| `Search.LeftmostSpec` | backend/app.py:152 | `re.search` tries start positions from the left: it fails only when every attempt fails, and otherwise it returns the first attempt that succeeds |
| `Search.LeftmostOnly` | backend/app.py:145 | when exactly one attempt in range succeeds (one alternative of the label group, say), the search returns it |
| `Text.StripSpec` | backend/app.py:165 | `strip()` returns a middle piece of the string with only whitespace around it |
| `Text.Strip` | backend/app.py:165 | the stripped description has no whitespace at either end |
| `Text.StripUnique` | backend/app.py:165 | for any core without whitespace at its ends, surrounded by any whitespace, stripping returns exactly that core |
| `Text.StripIdempotent` | backend/app.py:165 | stripping twice gives the same result as stripping once |
| `Text.SpanBackwardUnique` | backend/app.py:143 | a maximal run of a class ending at a position is the one the greedy scan finds |
| `Text.SpanForwardUnique` | backend/app.py:145 | a run of a class that cannot be extended is the one the greedy `\s*` or `\d+` takes |
| `Text.Split` | backend/app.py:140 | `text.split('\n')` gives at least one line, and no line contains `\n` |
| `Text.JoinSplit` | backend/app.py:140 | joining the lines with `\n` gives back the transcript |
| `Text.SplitJoin` | backend/app.py:140 | splitting the join of newline-free lines gives back those lines, so an empty transcript is one empty line |
| `Text.CentsIsNumeral` | backend/app.py:159 | the cents of an amount `whole.frac` are the value of the numeral read without the point; the whole part is the quotient by 100 and the two decimals the remainder, as `float(...)` denotes it exactly |
| `Text.DigitsValueAppend` | backend/app.py:166 | a numeral's value is its leading digits shifted past the trailing ones plus the trailing ones' value |
| `Text.DigitsValueBound` | backend/app.py:166 | a numeral of n digits is below 10 to the n |
| `DatePattern.FindDateSpec` | backend/app.py:144 | no date is found exactly when no ten-character `\d{2}[/-]\d{2}[/-]\d{4}` occurs; otherwise the result is the leftmost occurrence |
| `DatePattern.FindDateAt` | backend/app.py:152-154 | a date with no date starting before it is the one the search returns |
| `DatePattern.NoSeparatorNoDate` | backend/app.py:144 | a line with neither `/` nor `-` yields no date |
| `TotalPattern.TailMatchDetermined` | backend/app.py:145 | every way to read `\s*:\s*(\d+\.\d{2})` after a label gives the amount the greedy reading gives |
| `TotalPattern.LabelsExclusive` | backend/app.py:145 | at most one of `Total`, `Amount Due` and `Grand Total` matches at a position, ignoring case |
| `TotalPattern.MatchFound` | backend/app.py:145 | every whole match starting at a position is found by the ordered alternation, with that match's amount |
| `TotalPattern.FoundIsMatch` | backend/app.py:145 | what the alternation returns comes from a whole match of the pattern |
| `TotalPattern.TotalAtMatches` | backend/app.py:145 | the alternation succeeds at a position exactly when a match starts there, and then every match starting there captures the same amount |
| `TotalPattern.FindTotalSpec` | backend/app.py:157-159 | nothing is found exactly when no match starts anywhere in the line; otherwise the result is the amount of the leftmost match |
| `TotalPattern.MatchAtStart` | backend/app.py:157-159 | a match at the first character decides the total of the line |
| `TotalPattern.MatchStartsWithLabel` | backend/app.py:145 | a match starts with `t`, `a` or `g` in either case |
| `TotalPattern.NoColonNoTotal` | backend/app.py:145 | a line without `:` yields no total |
| `ItemPattern.ItemMatchPinned` | backend/app.py:143 | every match uses the digit run just before the final point, and its lazy group 1 ends no earlier than the computed description end |
| `ItemPattern.ComputedIsMatch` | backend/app.py:143 | the computed split points form a match that starts at the first character |
| `ItemPattern.MatchItemSpec` | backend/app.py:143 | a line yields a pair exactly when the pattern matches it; the pair is the shortest group 1, stripped, and the amount of group 2 |
| `ItemPattern.MatchItemAt` | backend/app.py:162-166 | a description ending on a non-space character, then whitespace, then the amount, gives that description stripped and that amount |
| `Receipts.Lines` | backend/app.py:140 | no line of the split transcript contains `\n` |
| `Receipts.FirstDate` | backend/app.py:151-154 | no date exactly when no line has one; otherwise the date of the earliest line with one |
| `Receipts.LastTotal` | backend/app.py:157-159 | no total exactly when no line has one; otherwise the total of the last line with one |
| `Receipts.LinePairs` | backend/app.py:162-166 | there are never more pairs than lines, since a line contributes at most one |
| `Receipts.LinePairsFromLines` | backend/app.py:162-166 | every collected pair is the item match of some line |
| `Receipts.LinePairsAppend` | backend/app.py:149 | the pairs of consecutive stretches of lines follow one another in line order |
| `Receipts.LinePairOfOneLine` | backend/app.py:162-166 | a single line contributes exactly its own item match, if any |
| `Receipts.PairFieldsAppend` | backend/app.py:164-166 | descriptions and prices of concatenated pair lists are concatenated |
| `Receipts.StepItems` | backend/app.py:162-166 | one iteration appends the line's description and price, if any, to the two lists |
| `Receipts.ScanItems` | backend/app.py:149-166 | from any state, the loop appends the descriptions and prices of all lines, in line order |
| `Receipts.ScanDate` | backend/app.py:151-154 | from any state, the loop keeps a date it already holds, and otherwise takes the date of the earliest line that has one |
| `Receipts.ScanTotal` | backend/app.py:157-159 | from any state, the loop ends with the total of the last line that has one, or with the total it started with |
| `Receipts.DateNeverOverwritten` | backend/app.py:151 | once a date is held, later lines never change it |
| `Receipts.ParseReceiptText` | backend/app.py:137-177 | items and prices have equal length and are the per-line pairs in order; the date is the first found; the total is the last explicit one, else the sum of prices if there are any, else absent |
| `Receipts.ItemsAlignWithPrices` | backend/app.py:162-166 | the i-th item and the i-th price come from the same line |
| `Examples.EmptyTranscript` | backend/app.py:140-177 | an empty transcript gives no date, no items, no prices and no total |
| `Examples.TotalLineIsAlsoItem` | backend/app.py:157-166 | `Total: 12.50` sets the total to 1250 cents and also adds the item `Total:` at 1250 cents |
| `Examples.ZeroTotalKept` | backend/app.py:169 | an explicit total of 0.00 is kept and is not replaced by the sum of the prices |
| `Examples.FallbackSum` | backend/app.py:168-170 | with no total line, the total is the sum of the prices |
| `Examples.LaterTotalWins` | backend/app.py:157-159 | `Total: 12.50` followed by `Grand Total: 13.75` gives the total 1375 cents: the later total line wins |
| `Examples.GrandTotalLine` | backend/app.py:145 | `Grand Total: 13.75` is read through the third label as 1375 cents |
| `Examples.EarlierDateWins` | backend/app.py:151-154 | of the lines `Store`, `01/02-2024` and `03/04/2025`, the date is `01/02-2024`: a later date is ignored |
| `Examples.TotalNotAnchored` | backend/app.py:145 | `Total: 12.345` yields 1234 cents |
| `Examples.TotalInsideWord` | backend/app.py:145 | `SUBTOTAL: 5.00` yields 500 cents, because the label may sit inside a word |
| `Examples.TotalNeedsColon` | backend/app.py:145 | `Total 5.00` yields no total |
| `Examples.MixedSeparators` | backend/app.py:144 | `12/05-2024` is found as a date after the text before it |
| `Examples.ItemWithSpacesInside` | backend/app.py:143 | `Milk 2L   4.99` gives the description `Milk 2L` and 499 cents |
| `Examples.ItemWithoutDescription` | backend/app.py:143 | `  4.99` gives the empty description and 499 cents |
| `Examples.SingleSpaceIsNoItem` | backend/app.py:143 | ` 4.99` gives no item, because group 1 needs a character |
| `Examples.ItemMustEndTheLine` | backend/app.py:143 | an amount in the middle of a line, or one followed by `\r`, gives no item |

## Left out

- `extract_text_from_image` (backend/app.py:117-135) is a Pillow and Tesseract OCR call. The transcript is the model's input instead.
- The Tesseract path and the upload folder setup (backend/app.py:108-115) are configuration and filesystem side effects.
- The Flask `/upload` route (backend/app.py:179-197) saves files, writes JSON to disk and builds the HTTP response. It only passes text into `parse_receipt_text`.
- The commented-out earlier implementation (backend/app.py:1-95) is dead code.
- frontend/receipt-analyzer/src/App.js is not part of this model. It is a React UI with a network call and chart rendering.
- `float()` and `sum()` work on binary floating point. The model uses exact whole cents, so rounding in the sum is not modelled.
- Python's `\d` also accepts non-ASCII decimal digits, and `re.IGNORECASE` uses Unicode case folding. The model accepts only ASCII digits and folds only ASCII letters. None of the letters of the three labels has a non-ASCII case partner that Python's matcher would accept.
- `ItemPattern.MatchItemSpec` requires that the line contain no `\n`. Without `re.DOTALL`, `.` and `$` treat `\n` differently. Every line comes from splitting at `\n`, so no line has one.
- The output dictionary and its JSON form are represented by the `Receipt` datatype.
