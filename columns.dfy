/**
 * Spreadsheet column names: 1 is "A", 26 is "Z", 27 is "AA" (bijective
 * base 26, no zero digit).
 */
module Columns {
  import opened Wrappers

  /** The letter for a base-26 digit 0..25. */
  function Letter(d: nat): (c: char)
    requires d < 26
    ensures 'A' <= c <= 'Z'
  {
    ('A' as int + d) as char
  }

  /** A non-empty string of capital letters. */
  predicate IsColumnName(s: string) {
    |s| > 0 && forall i | 0 <= i < |s| :: 'A' <= s[i] <= 'Z'
  }

  /** The column name of the 1-based column `n`; empty for 0. */
  function Letters(n: nat): (s: string)
    ensures n >= 1 ==> IsColumnName(s)
    ensures n == 0 <==> s == ""
    decreases n
  {
    if n == 0 then "" else Letters((n - 1) / 26) + [Letter((n - 1) % 26)]
  }

  /** The 1-based column number a column name stands for. */
  function ColumnIndex(s: string): nat
    requires forall i | 0 <= i < |s| :: 'A' <= s[i] <= 'Z'
    decreases |s|
  {
    if |s| == 0 then 0
    else ColumnIndex(s[..|s| - 1]) * 26 + (s[|s| - 1] as int - 'A' as int + 1)
  }

  /** Reading the column part of a cell address such as "B11". */
  function ParseColumn(s: string): Option<nat> {
    if IsColumnName(s) then Some(ColumnIndex(s)) else None
  }

  /** Decoding the name of column `n` gives `n` back. */
  lemma {:induction false} ColumnIndexOfLetters(n: nat)
    ensures ColumnIndex(Letters(n)) == n
    decreases n
  {
    if n > 0 {
      var s := Letters(n);
      ColumnIndexOfLetters((n - 1) / 26);
      assert s[..|s| - 1] == Letters((n - 1) / 26);
      assert s[|s| - 1] as int - 'A' as int == (n - 1) % 26;
    }
  }

  /** A number written as `q` base-26 places and a last digit `d` splits back into them. */
  lemma DigitSplit(q: nat, d: nat)
    requires d < 26
    ensures (q * 26 + d) / 26 == q && (q * 26 + d) % 26 == d
  {
  }

  /** Every column name is the name of the column it decodes to. */
  lemma {:induction false} LettersOfColumnIndex(s: string)
    requires forall i | 0 <= i < |s| :: 'A' <= s[i] <= 'Z'
    ensures Letters(ColumnIndex(s)) == s
    decreases |s|
  {
    if |s| > 0 {
      var init := s[..|s| - 1];
      var d := s[|s| - 1] as int - 'A' as int;
      LettersOfColumnIndex(init);
      var n := ColumnIndex(s);
      assert n - 1 == ColumnIndex(init) * 26 + d;
      DigitSplit(ColumnIndex(init), d);
      assert s == init + [s[|s| - 1]];
    }
  }

  /** Distinct columns have distinct names. */
  lemma LettersInjective(m: nat, n: nat)
    requires Letters(m) == Letters(n)
    ensures m == n
  {
    ColumnIndexOfLetters(m);
    ColumnIndexOfLetters(n);
  }

  lemma ParseColumnOfLetters(n: nat)
    requires n >= 1
    ensures ParseColumn(Letters(n)) == Some(n)
  {
    ColumnIndexOfLetters(n);
  }

  /** The sample points of the encoding. */
  lemma LettersExamples()
    ensures Letters(1) == "A" && Letters(2) == "B" && Letters(26) == "Z"
    ensures Letters(27) == "AA" && Letters(52) == "AZ" && Letters(702) == "ZZ"
    ensures Letters(703) == "AAA"
  {
    assert Letters(26) == Letters(0) + [Letter(25)];
    assert Letters(27) == Letters(1) + [Letter(0)];
    assert Letters(52) == Letters(1) + [Letter(25)];
    assert Letters(702) == Letters(26) + [Letter(25)];
    assert Letters(703) == Letters(27) + [Letter(0)];
  }

  /**
   * getColumnLetter: repeatedly peel off the last base-26 digit and prepend
   * its letter. A column index of zero or less gives the empty string.
   */
  method ColumnLetter(colIdx: int) returns (result: string)
    ensures colIdx <= 0 ==> result == ""
    ensures colIdx >= 1 ==> result == Letters(colIdx) && IsColumnName(result)
  {
    result := "";
    var n := colIdx;
    while n > 0
      invariant colIdx <= 0 ==> n == colIdx && result == ""
      invariant colIdx >= 1 ==> n >= 0 && Letters(n) + result == Letters(colIdx)
      decreases n
    {
      n := n - 1;
      result := [Letter(n % 26)] + result;
      n := n / 26;
    }
  }
}
