/** Character classes and string operations the receipt parser relies on:
    the `\s` and `\d` classes, greedy runs of a class, `str.strip()`,
    `str.split(sep)`, and the value of a `\d+\.\d{2}` amount in cents. */
module Text {

  /** Whitespace exactly as Python's `str.isspace()` (and so the `\s` class of a
      `str` pattern) sees it: the ASCII controls 9-13 and 28-31, the space, and
      the fixed list of Unicode spaces. */
  predicate IsSpace(c: char)
  {
    || ('\t' <= c <= '\r')
    || ('\U{1C}' <= c <= '\U{1F}')
    || c == ' '
    || c == '\U{85}'
    || c == '\U{A0}'
    || c == '\U{1680}'
    || ('\U{2000}' <= c <= '\U{200A}')
    || c == '\U{2028}'
    || c == '\U{2029}'
    || c == '\U{202F}'
    || c == '\U{205F}'
    || c == '\U{3000}'
  }

  /** The `\d` class, restricted to the ASCII digits. */
  predicate IsDigit(c: char)
  {
    '0' <= c <= '9'
  }

  /** Every character of `s` belongs to the class `p`. */
  predicate All(s: string, p: char -> bool)
  {
    forall m :: 0 <= m < |s| ==> p(s[m])
  }

  /** End of the greedy run of class `p` that starts at `j` (`p*` matched at `j`). */
  function SpanForward(s: string, j: nat, p: char -> bool): (k: nat)
    requires j <= |s|
    ensures j <= k <= |s|
    ensures All(s[j..k], p)
    ensures k == |s| || !p(s[k])
    decreases |s| - j
  {
    if j < |s| && p(s[j]) then
      var k := SpanForward(s, j + 1, p);
      assert s[j..k] == [s[j]] + s[j + 1..k];
      k
    else
      j
  }

  /** A run of `p` from `j` that cannot be extended is the greedy one. */
  lemma {:induction false} SpanForwardUnique(s: string, j: nat, k: nat, p: char -> bool)
    requires j <= k <= |s|
    requires All(s[j..k], p)
    requires k == |s| || !p(s[k])
    ensures SpanForward(s, j, p) == k
    decreases k - j
  {
    if j < k {
      assert s[j..k][0] == s[j];
      assert s[j + 1..k] == s[j..k][1..];
      SpanForwardUnique(s, j + 1, k, p);
    }
  }

  /** Start of the longest run of class `p` that ends just before `j`. */
  function SpanBackward(s: string, j: nat, p: char -> bool): (k: nat)
    requires j <= |s|
    ensures k <= j
    ensures All(s[k..j], p)
    ensures k == 0 || !p(s[k - 1])
    decreases j
  {
    if 0 < j && p(s[j - 1]) then
      var k := SpanBackward(s, j - 1, p);
      assert s[k..j] == s[k..j - 1] + [s[j - 1]];
      k
    else
      j
  }

  /** A run of `p` ending at `j` that cannot be extended to the left is the longest one. */
  lemma {:induction false} SpanBackwardUnique(s: string, j: nat, k: nat, p: char -> bool)
    requires k <= j <= |s|
    requires All(s[k..j], p)
    requires k == 0 || !p(s[k - 1])
    ensures SpanBackward(s, j, p) == k
    decreases j
  {
    if k < j {
      assert s[k..j][j - 1 - k] == s[j - 1];
      assert s[k..j - 1] == s[k..j][..j - 1 - k];
      SpanBackwardUnique(s, j - 1, k, p);
    }
  }

  /** Every run of `p` ending at `j` starts at or after the longest one. */
  lemma {:induction false} SpanBackwardLeast(s: string, j: nat, m: nat, p: char -> bool)
    requires m <= j <= |s|
    requires All(s[m..j], p)
    ensures SpanBackward(s, j, p) <= m
    decreases j
  {
    if m < j {
      assert s[m..j][j - 1 - m] == s[j - 1];
      assert s[m..j - 1] == s[m..j][..j - 1 - m];
      SpanBackwardLeast(s, j - 1, m, p);
    }
  }

  /** Python's `str.strip()` with no argument: drop leading and trailing whitespace.
      What is left has no whitespace at either end. */
  function Strip(s: string): (r: string)
    ensures r == [] || (!IsSpace(r[0]) && !IsSpace(r[|r| - 1]))
  {
    var i := SpanForward(s, 0, IsSpace);
    if i == |s| then
      []
    else
      var j := SpanBackward(s, |s|, IsSpace);
      s[i..j]
  }

  /** What `Strip` drops is whitespace: its result is a middle piece of the
      string with only whitespace before and after it. */
  lemma StripSpec(s: string)
    ensures exists i, j :: 0 <= i <= j <= |s| && Strip(s) == s[i..j] && All(s[..i], IsSpace) && All(s[j..], IsSpace)
  {
    var i := SpanForward(s, 0, IsSpace);
    assert s[..i] == s[0..i];
    if i == |s| {
      assert Strip(s) == s[i..i] && s[i..] == [];
    } else {
      var j := SpanBackward(s, |s|, IsSpace);
      assert s[j..] == s[j..|s|];
      assert Strip(s) == s[i..j];
    }
  }

  /** `Strip` is the unique whitespace-free core: whatever whitespace surrounds
      a string with no whitespace at either end, stripping gives it back. */
  lemma StripUnique(a: string, m: string, b: string)
    requires All(a, IsSpace) && All(b, IsSpace)
    requires m == [] || (!IsSpace(m[0]) && !IsSpace(m[|m| - 1]))
    ensures Strip(a + m + b) == m
  {
    var s := a + m + b;
    if m == [] {
      assert s == a + b;
      assert All(s[0..|s|], IsSpace) by {
        assert s[0..|s|] == s;
      }
      SpanForwardUnique(s, 0, |s|, IsSpace);
    } else {
      assert s[0..|a|] == a;
      assert s[|a|] == m[0];
      SpanForwardUnique(s, 0, |a|, IsSpace);
      var e := |a| + |m|;
      assert s[e..|s|] == b;
      assert s[e - 1] == m[|m| - 1];
      SpanBackwardUnique(s, |s|, e, IsSpace);
      assert s[|a|..e] == m;
    }
  }

  /** A string with no whitespace at either end is its own stripped form. */
  lemma StripKeeps(m: string)
    requires m == [] || (!IsSpace(m[0]) && !IsSpace(m[|m| - 1]))
    ensures Strip(m) == m
  {
    StripUnique([], m, []);
    assert [] + m + [] == m;
  }

  /** Stripping twice changes nothing. */
  lemma StripIdempotent(s: string)
    ensures Strip(Strip(s)) == Strip(s)
  {
    StripKeeps(Strip(s));
  }

  /** Python's `s.split(sep)` with an explicit separator: the pieces between
      separators, including empty ones; an empty string gives one empty piece. */
  function Split(s: string, sep: char): (parts: seq<string>)
    ensures |parts| >= 1
    ensures forall m :: 0 <= m < |parts| ==> sep !in parts[m]
    decreases |s|
  {
    if |s| == 0 then
      [""]
    else
      var rest := Split(s[1..], sep);
      if s[0] == sep then
        [""] + rest
      else
        assert forall m :: 1 <= m < |rest| ==> rest[1..][m - 1] == rest[m];
        [[s[0]] + rest[0]] + rest[1..]
  }

  /** Python's `sep.join(parts)`. */
  function Join(parts: seq<string>, sep: char): string
    requires |parts| >= 1
  {
    if |parts| == 1 then parts[0] else parts[0] + [sep] + Join(parts[1..], sep)
  }

  /** Joining the pieces of a split with the same separator restores the string. */
  lemma {:induction false} JoinSplit(s: string, sep: char)
    ensures Join(Split(s, sep), sep) == s
    decreases |s|
  {
    if |s| > 0 {
      var rest := Split(s[1..], sep);
      JoinSplit(s[1..], sep);
      if s[0] == sep {
        assert Split(s, sep) == [""] + rest;
        assert (["" ] + rest)[1..] == rest;
      } else {
        var parts := [[s[0]] + rest[0]] + rest[1..];
        assert Split(s, sep) == parts;
        if |rest| == 1 {
          assert s == [s[0]] + s[1..];
        } else {
          assert parts[1..] == rest[1..];
          assert Join(rest, sep) == rest[0] + [sep] + Join(rest[1..], sep);
          assert s == [s[0]] + s[1..];
        }
      }
    }
  }

  /** Splitting a separator-free prefix off the front of a string extends its first piece. */
  lemma {:induction false} SplitPrefix(x: string, y: string, sep: char)
    requires sep !in x
    ensures Split(x + y, sep) == [x + Split(y, sep)[0]] + Split(y, sep)[1..]
    decreases |x|
  {
    if |x| > 0 {
      SplitPrefix(x[1..], y, sep);
      assert (x + y)[1..] == x[1..] + y;
      assert (x + y)[0] == x[0];
      assert [x[0]] + (x[1..] + Split(y, sep)[0]) == x + Split(y, sep)[0];
    } else {
      var parts := Split(y, sep);
      assert x + y == y && x + parts[0] == parts[0];
      assert parts == [parts[0]] + parts[1..];
    }
  }

  /** Splitting pieces that are free of the separator, once joined, gives the pieces back. */
  lemma {:induction false} SplitJoin(parts: seq<string>, sep: char)
    requires |parts| >= 1
    requires forall m :: 0 <= m < |parts| ==> sep !in parts[m]
    ensures Split(Join(parts, sep), sep) == parts
    decreases |parts|
  {
    if |parts| == 1 {
      SplitPrefix(parts[0], "", sep);
      assert parts[0] + "" == parts[0];
    } else {
      var tail := Join(parts[1..], sep);
      SplitJoin(parts[1..], sep);
      SplitPrefix(parts[0], [sep] + tail, sep);
      assert parts[0] + [sep] + tail == parts[0] + ([sep] + tail);
      assert ([sep] + tail)[1..] == tail;
      assert parts[0] + "" == parts[0];
      assert parts == [parts[0]] + parts[1..];
    }
  }

  /** The value of one ASCII digit. */
  function DigitValue(c: char): nat
    requires IsDigit(c)
  {
    c as int - '0' as int
  }

  /** The value of a run of ASCII digits read as a decimal numeral. */
  function DigitsValue(s: string): nat
    requires All(s, IsDigit)
  {
    if |s| == 0 then 0 else DigitsValue(s[..|s| - 1]) * 10 + DigitValue(s[|s| - 1])
  }

  /** Ten to the power `n`. */
  function Pow10(n: nat): (r: nat)
    ensures r >= 1
  {
    if n == 0 then 1 else 10 * Pow10(n - 1)
  }

  /** The value of a numeral is that of its leading digits shifted past the
      trailing ones, plus the value of the trailing ones. */
  lemma {:induction false} DigitsValueAppend(a: string, b: string)
    requires All(a, IsDigit) && All(b, IsDigit)
    ensures All(a + b, IsDigit)
    ensures DigitsValue(a + b) == DigitsValue(a) * Pow10(|b|) + DigitsValue(b)
    decreases |b|
  {
    if |b| == 0 {
      assert a + b == a;
    } else {
      var front := b[..|b| - 1];
      assert (a + b)[..|a + b| - 1] == a + front;
      assert (a + b)[|a + b| - 1] == b[|b| - 1];
      DigitsValueAppend(a, front);
      ShiftByOneDigit(DigitsValue(a), Pow10(|front|), DigitsValue(front));
    }
  }

  /** A numeral of `n` digits is below ten to the `n`. */
  lemma {:induction false} DigitsValueBound(s: string)
    requires All(s, IsDigit)
    ensures DigitsValue(s) < Pow10(|s|)
    decreases |s|
  {
    if |s| > 0 {
      DigitsValueBound(s[..|s| - 1]);
    }
  }

  /** One more trailing digit multiplies the shift by ten. */
  lemma ShiftByOneDigit(x: nat, p: nat, y: nat)
    ensures (x * p + y) * 10 == x * (10 * p) + y * 10
  {
  }

  /** The amount `whole.frac` in hundredths, as `float("whole.frac")` denotes it
      exactly; `frac` is the two digits after the point. */
  function Cents(whole: string, frac: string): nat
    requires All(whole, IsDigit) && All(frac, IsDigit) && |frac| == 2
  {
    DigitsValue(whole) * 100 + DigitsValue(frac)
  }

  /** The cents of `whole.frac` are the value of the numeral read without the
      point, and the two decimals alone stay below one whole unit. */
  lemma CentsIsNumeral(whole: string, frac: string)
    requires All(whole, IsDigit) && All(frac, IsDigit) && |frac| == 2
    ensures All(whole + frac, IsDigit)
    ensures Cents(whole, frac) == DigitsValue(whole + frac)
    ensures Cents(whole, frac) / 100 == DigitsValue(whole) && Cents(whole, frac) % 100 == DigitsValue(frac)
  {
    DigitsValueAppend(whole, frac);
    assert Pow10(|frac|) == 100;
    DigitsValueBound(frac);
  }

}
