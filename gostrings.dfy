/**
 * The handful of Go `strings` and `fmt` operations the core relies on,
 * written over `seq<char>`.
 */
module GoStrings {
  import opened Wrappers

  /**
   * White space as `strings.TrimSpace` sees it (`unicode.IsSpace`): the
   * Latin-1 spaces and the other code points of Unicode's White_Space.
   */
  predicate IsSpace(c: char) {
    c == ' ' || '\t' <= c <= '\r' || c == '\U{0085}' || c == '\U{00A0}' || c == '\U{1680}' ||
    '\U{2000}' <= c <= '\U{200A}' || c == '\U{2028}' || c == '\U{2029}' || c == '\U{202F}' ||
    c == '\U{205F}' || c == '\U{3000}'
  }

  predicate AllSpace(s: string) {
    forall i | 0 <= i < |s| :: IsSpace(s[i])
  }

  /** A cell is blank when nothing but white space is in it. */
  predicate IsBlank(s: string) {
    TrimSpace(s) == ""
  }

  /** The length of the run of white space `s` starts with. */
  function LeadingSpaces(s: string): (n: nat)
    ensures n <= |s|
    decreases |s|
  {
    if |s| > 0 && IsSpace(s[0]) then 1 + LeadingSpaces(s[1..]) else 0
  }

  lemma {:induction false} LeadingSpacesSpec(s: string)
    ensures var n := LeadingSpaces(s);
      (n == |s| || !IsSpace(s[n])) && forall i | 0 <= i < n :: IsSpace(s[i])
    decreases |s|
  {
    if |s| > 0 && IsSpace(s[0]) {
      LeadingSpacesSpec(s[1..]);
    }
  }

  /** The length of the run of white space `s` ends with. */
  function TrailingSpaces(s: string): (n: nat)
    ensures n <= |s|
    decreases |s|
  {
    if |s| > 0 && IsSpace(s[|s| - 1]) then 1 + TrailingSpaces(s[..|s| - 1]) else 0
  }

  lemma {:induction false} TrailingSpacesSpec(s: string)
    ensures var n := TrailingSpaces(s);
      (n == |s| || !IsSpace(s[|s| - n - 1])) && forall i | |s| - n <= i < |s| :: IsSpace(s[i])
    decreases |s|
  {
    if |s| > 0 && IsSpace(s[|s| - 1]) {
      TrailingSpacesSpec(s[..|s| - 1]);
    }
  }

  /** `strings.TrimSpace`: drop leading and trailing white space. */
  function TrimSpace(s: string): (r: string)
    ensures |r| <= |s|
  {
    var l := s[LeadingSpaces(s)..];
    l[..|l| - TrailingSpaces(l)]
  }

  /** Trimming leaves nothing exactly when all is white space, and otherwise no white space at either end. */
  lemma TrimSpaceSpec(s: string)
    ensures TrimSpace(s) == "" <==> AllSpace(s)
    ensures TrimSpace(s) != "" ==> !IsSpace(TrimSpace(s)[0]) && !IsSpace(TrimSpace(s)[|TrimSpace(s)| - 1])
  {
    var l := s[LeadingSpaces(s)..];
    LeadingSpacesSpec(s);
    TrailingSpacesSpec(l);
  }

  /** Every kind of white space is trimmed, not only ASCII, and inner white space stays. */
  lemma TrimSpaceExamples()
    ensures TrimSpace("\U{3000}") == ""
    ensures TrimSpace("\U{2003}B-1\U{00A0}") == "B-1"
    ensures TrimSpace(" 2.5 ft\t") == "2.5 ft"
  {
    assert LeadingSpaces("\U{2003}B-1\U{00A0}") == 1;
    assert TrailingSpaces("B-1\U{00A0}") == 1;
    assert LeadingSpaces(" 2.5 ft\t") == 1;
    assert TrailingSpaces("2.5 ft\t") == 1;
  }

  /** `strings.HasPrefix`. */
  predicate HasPrefix(s: string, prefix: string) {
    |prefix| <= |s| && s[..|prefix|] == prefix
  }

  /** `strings.Contains`. */
  predicate Contains(s: string, sub: string)
    decreases |s|
  {
    HasPrefix(s, sub) || (|s| > 0 && Contains(s[1..], sub))
  }

  lemma {:induction false} ContainsAt(s: string, sub: string, i: nat)
    requires i + |sub| <= |s| && s[i..i + |sub|] == sub
    ensures Contains(s, sub)
    decreases i
  {
    if i > 0 {
      assert s[1..][i - 1..i - 1 + |sub|] == s[i..i + |sub|];
      ContainsAt(s[1..], sub, i - 1);
    }
  }

  /**
   * Whatever contains a string also contains each of its prefixes: a test
   * name containing "Moisture Content" contains "Moisture".
   */
  lemma {:induction false} ContainsPrefixOf(s: string, sub: string, pre: string)
    requires Contains(s, sub) && HasPrefix(sub, pre)
    ensures Contains(s, pre)
    decreases |s|
  {
    if HasPrefix(s, sub) {
      assert s[..|pre|] == sub[..|pre|];
    } else {
      ContainsPrefixOf(s[1..], sub, pre);
    }
  }

  /** `strings.Join`. */
  function Join(parts: seq<string>, sep: string): string
    decreases |parts|
  {
    if |parts| == 0 then ""
    else if |parts| == 1 then parts[0]
    else parts[0] + sep + Join(parts[1..], sep)
  }

  /** How often `c` occurs in `s`. */
  function Count(s: string, c: char): nat
    decreases |s|
  {
    if |s| == 0 then 0 else (if s[0] == c then 1 else 0) + Count(s[1..], c)
  }

  lemma {:induction false} CountZero(s: string, c: char)
    ensures Count(s, c) == 0 <==> c !in s
    decreases |s|
  {
    if |s| > 0 {
      CountZero(s[1..], c);
      assert s == [s[0]] + s[1..];
    }
  }

  /**
   * `strings.Split` with a one-character separator: as many parts as
   * separators plus one, none of them holding the separator.
   */
  function Split(s: string, sep: char): (parts: seq<string>)
    ensures |parts| == Count(s, sep) + 1
    ensures forall k | 0 <= k < |parts| :: sep !in parts[k]
    decreases |s|
  {
    if |s| == 0 then [""]
    else if s[0] == sep then [""] + Split(s[1..], sep)
    else
      var rest := Split(s[1..], sep);
      [[s[0]] + rest[0]] + rest[1..]
  }

  /** The "a|b" encoding of a pair used as key and value of the sheet indexes. */
  function Pair(a: string, b: string): string {
    a + "|" + b
  }

  lemma {:induction false} SplitNoSep(a: string, sep: char)
    requires sep !in a
    ensures Split(a, sep) == [a]
    decreases |a|
  {
    if |a| > 0 {
      SplitNoSep(a[1..], sep);
      assert [a[0]] + a[1..] == a;
    }
  }

  /** Decoding an encoded pair gives back both halves when neither holds a bar. */
  lemma {:induction false} SplitPair(a: string, b: string)
    requires '|' !in a && '|' !in b
    ensures Split(Pair(a, b), '|') == [a, b]
    decreases |a|
  {
    if |a| == 0 {
      assert Pair(a, b) == ['|'] + b;
      assert Pair(a, b)[1..] == b;
      SplitNoSep(b, '|');
    } else {
      assert Pair(a, b)[1..] == Pair(a[1..], b);
      SplitPair(a[1..], b);
      assert [a[0]] + a[1..] == a;
    }
  }

  /** Encoding the parts of a two-part split restores the original string. */
  lemma {:induction false} PairOfSplit(s: string)
    requires |Split(s, '|')| == 2
    ensures Pair(Split(s, '|')[0], Split(s, '|')[1]) == s
    decreases |s|
  {
    var parts := Split(s, '|');
    if s[0] == '|' {
      assert parts[1..] == Split(s[1..], '|');
      CountZero(s[1..], '|');
      SplitNoSep(s[1..], '|');
      assert s == "|" + s[1..];
    } else {
      var rest := Split(s[1..], '|');
      PairOfSplit(s[1..]);
      assert parts[0] == [s[0]] + rest[0];
      assert parts[1] == rest[1];
      assert s == [s[0]] + s[1..];
    }
  }

  /** The character for a decimal digit. */
  function Digit(d: nat): (c: char)
    requires d < 10
    ensures '0' <= c <= '9'
  {
    ('0' as int + d) as char
  }

  predicate AllDigits(s: string) {
    forall i | 0 <= i < |s| :: '0' <= s[i] <= '9'
  }

  /** `fmt.Sprintf("%d", n)` for a non-negative `n`. */
  function NatToString(n: nat): (s: string)
    ensures |s| >= 1 && AllDigits(s)
    decreases n
  {
    if n < 10 then [Digit(n)] else NatToString(n / 10) + [Digit(n % 10)]
  }

  function DigitsValue(s: string): nat
    requires AllDigits(s)
    decreases |s|
  {
    if |s| == 0 then 0
    else DigitsValue(s[..|s| - 1]) * 10 + (s[|s| - 1] as int - '0' as int)
  }

  /** Reading a row number back out of a cell address. */
  function ParseNat(s: string): Option<nat> {
    if |s| > 0 && AllDigits(s) then Some(DigitsValue(s)) else None
  }

  /** A two-digit text reads as its tens digit times ten plus its units digit. */
  lemma ParseNatTwoDigits(s: string)
    requires |s| == 2 && '0' <= s[0] <= '9' && '0' <= s[1] <= '9'
    ensures ParseNat(s) == Some((s[0] as int - '0' as int) * 10 + (s[1] as int - '0' as int))
  {
    assert s[..1][..0] == [];
    assert DigitsValue(s[..1]) == s[0] as int - '0' as int;
  }

  lemma {:induction false} ParseNatToString(n: nat)
    ensures ParseNat(NatToString(n)) == Some(n)
    decreases n
  {
    var s := NatToString(n);
    if n >= 10 {
      ParseNatToString(n / 10);
      assert s[..|s| - 1] == NatToString(n / 10);
      assert s[|s| - 1] as int - '0' as int == n % 10;
      assert DigitsValue(s) == (n / 10) * 10 + n % 10;
    }
  }

  lemma NatToStringInjective(m: nat, n: nat)
    requires NatToString(m) == NatToString(n)
    ensures m == n
  {
    ParseNatToString(m);
    ParseNatToString(n);
  }
}
