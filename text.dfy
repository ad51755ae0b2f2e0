/**
 * Character classes and the few C library string routines the shell relies on:
 * isspace/isalnum in the C locale, snprintf("%d"), strtol(_, _, 10) with its
 * end-pointer check, and joining strings with a separator (the strcat loops).
 */
module Text {
  import opened Options

  /** isspace in the C locale: space, \t, \n, \v, \f, \r. */
  predicate IsSpace(c: char) {
    c == ' ' || '\t' <= c <= '\r'
  }

  predicate IsDigit(c: char) {
    '0' <= c <= '9'
  }

  /** isalnum in the C locale. */
  predicate IsAlnum(c: char) {
    IsDigit(c) || 'a' <= c <= 'z' || 'A' <= c <= 'Z'
  }

  function DigitChar(d: nat): (c: char)
    requires d < 10
    ensures IsDigit(c)
  {
    (48 + d) as char
  }

  function DigitValue(c: char): (d: nat)
    requires IsDigit(c)
    ensures d < 10
  {
    c as int - 48
  }

  predicate AllDigits(s: string) {
    forall k :: 0 <= k < |s| ==> IsDigit(s[k])
  }

  /** The decimal digits of a natural number, most significant first, no leading zeros. */
  function Natural(n: nat): (r: string)
    decreases n
  {
    if n < 10 then [DigitChar(n)] else Natural(n / 10) + [DigitChar(n % 10)]
  }

  /** snprintf(buf, 12, "%d", n): an optional minus sign followed by the digits. */
  function Decimal(n: int): (r: string)
  {
    if n < 0 then "-" + Natural(-n) else Natural(n)
  }

  /** The value of a run of decimal digits, read most significant first. */
  function DigitsValue(s: string): (v: nat)
    requires AllDigits(s)
    decreases |s|
  {
    if s == [] then 0 else DigitsValue(s[..|s| - 1]) * 10 + DigitValue(s[|s| - 1])
  }

  /** Length of the maximal run of characters from i on that satisfy p. */
  function RunEnd(s: string, i: nat, p: char -> bool): (j: nat)
    requires i <= |s|
    ensures i <= j <= |s|
    ensures forall k :: i <= k < j ==> p(s[k])
    ensures j == |s| || !p(s[j])
    decreases |s| - i
  {
    if i == |s| || !p(s[i]) then i else RunEnd(s, i + 1, p)
  }

  /**
   * strtol(s, &end, 10) followed by the check `*end != '\0' || end == s`:
   * leading white space, an optional sign and at least one digit, with
   * nothing left over. Out-of-range values are not clamped (integers are
   * unbounded here).
   */
  function StrToLong(s: string): (r: Option<int>)
  {
    var i := RunEnd(s, 0, IsSpace);
    var j := if i < |s| && (s[i] == '+' || s[i] == '-') then i + 1 else i;
    var k := RunEnd(s, j, IsDigit);
    if k == j || k != |s| then None
    else
      var v: int := DigitsValue(s[j..k]);
      Some(if j > i && s[i] == '-' then -v else v)
  }

  /** The strings of xs separated by sep, as a strcat loop that writes sep before every element but the first. */
  function Join(xs: seq<string>, sep: char): (r: string)
    decreases |xs|
  {
    if |xs| == 0 then ""
    else if |xs| == 1 then xs[0]
    else Join(xs[..|xs| - 1], sep) + [sep] + xs[|xs| - 1]
  }

  /** The pieces of s between occurrences of sep (the inverse of Join). */
  function Split(s: string, sep: char): (r: seq<string>)
    ensures |r| > 0
    decreases |s|
  {
    if s == [] then [""]
    else
      var rest := Split(s[..|s| - 1], sep);
      if s[|s| - 1] == sep then rest + [""]
      else rest[..|rest| - 1] + [rest[|rest| - 1] + [s[|s| - 1]]]
  }

  lemma {:induction false} NaturalDigits(n: nat)
    ensures |Natural(n)| > 0 && AllDigits(Natural(n))
    ensures DigitsValue(Natural(n)) == n
    decreases n
  {
    if n >= 10 {
      NaturalDigits(n / 10);
      var s := Natural(n);
      assert s[..|s| - 1] == Natural(n / 10);
    }
  }

  /** strtol reads back what snprintf("%d") writes. */
  lemma StrToLongDecimal(n: int)
    ensures StrToLong(Decimal(n)) == Some(n)
  {
    var m: nat := if n < 0 then -n else n;
    NaturalDigits(m);
    var s := Decimal(n);
    var i := RunEnd(s, 0, IsSpace);
    assert i == 0 by {
      assert !IsSpace(s[0]);
    }
    var j := if i < |s| && (s[i] == '+' || s[i] == '-') then i + 1 else i;
    if n < 0 {
      assert j == 1;
      assert s[1..] == Natural(m);
    } else {
      assert j == 0;
      assert s[0..] == Natural(m);
    }
    assert s[j..] == Natural(m);
    var k := RunEnd(s, j, IsDigit);
    assert k == |s|;
    assert s[j..k] == Natural(m);
    assert j > i <==> n < 0;
  }

  /**
   * What strtol accepts in full: white space, an optional sign and at
   * least one digit, read as the digits' value with the sign applied.
   */
  lemma StrToLongAccepts(ws: string, sign: string, d: string)
    requires forall k :: 0 <= k < |ws| ==> IsSpace(ws[k])
    requires sign == "" || sign == "+" || sign == "-"
    requires d != [] && AllDigits(d)
    ensures StrToLong(ws + sign + d) == Some(Signed(sign == "-", DigitsValue(d)))
  {
    var s := ws + sign + d;
    var i, j := |ws|, |ws| + |sign|;
    SignedScan(ws, sign, d);
    if sign == "" {
      assert IsDigit(d[0]);
    }
    StrToLongUnfold(s, i, j);
    assert (j > i && s[i] == '-') == (sign == "-");
  }

  /** StrToLong once its scans are known: i after the white space, j after the sign. */
  lemma StrToLongUnfold(s: string, i: nat, j: nat)
    requires i <= j < |s| && RunEnd(s, 0, IsSpace) == i
    requires (j == i + 1 && (s[i] == '+' || s[i] == '-')) || (j == i && s[i] != '+' && s[i] != '-')
    requires RunEnd(s, j, IsDigit) == |s|
    ensures AllDigits(s[j..])
    ensures StrToLong(s) == Some(Signed(j > i && s[i] == '-', DigitsValue(s[j..])))
  {
    assert s[j..|s|] == s[j..];
  }

  /** The two scans of strtol over white space, a sign and digits. */
  lemma SignedScan(ws: string, sign: string, d: string)
    requires forall k :: 0 <= k < |ws| ==> IsSpace(ws[k])
    requires sign == "" || sign == "+" || sign == "-"
    requires d != [] && AllDigits(d)
    ensures RunEnd(ws + sign + d, 0, IsSpace) == |ws|
    ensures RunEnd(ws + sign + d, |ws| + |sign|, IsDigit) == |ws + sign + d|
    ensures (ws + sign + d)[|ws| + |sign|..] == d
    ensures (ws + sign + d)[|ws|] == if sign == "" then d[0] else sign[0]
  {
    var s := ws + sign + d;
    var j := |ws| + |sign|;
    assert forall k :: 0 <= k < |ws| ==> s[k] == ws[k];
    assert s[|ws|] == if sign == "" then d[0] else sign[0];
    RunEndIs(s, 0, IsSpace, |ws|);
    assert forall k :: j <= k < |s| ==> s[k] == d[k - j];
    RunEndIs(s, j, IsDigit, |s|);
  }

  /** The value of a digit run with strtol's sign applied. */
  function Signed(negative: bool, v: nat): int {
    var x: int := v;
    if negative then -x else x
  }

  lemma {:induction false} RunEndIs(s: string, i: nat, p: char -> bool, j: nat)
    requires i <= j <= |s|
    requires forall k :: i <= k < j ==> p(s[k])
    requires j == |s| || !p(s[j])
    ensures RunEnd(s, i, p) == j
    decreases j - i
  {
    if i < j {
      RunEndIs(s, i + 1, p, j);
    }
  }

  /** Leading zeros do not change the value of a run of digits. */
  lemma {:induction false} LeadingZero(d: string)
    requires AllDigits(d)
    ensures AllDigits("0" + d) && DigitsValue("0" + d) == DigitsValue(d)
    decreases |d|
  {
    var z := "0" + d;
    if d != [] {
      LeadingZero(d[..|d| - 1]);
      assert z[..|z| - 1] == "0" + d[..|d| - 1];
      assert z[|z| - 1] == d[|d| - 1];
    }
  }

  /** Joining pieces free of the separator and splitting again gives them back. */
  lemma {:induction false} SplitJoin(xs: seq<string>, sep: char)
    requires |xs| > 0
    requires forall k :: 0 <= k < |xs| ==> sep !in xs[k]
    ensures Split(Join(xs, sep), sep) == xs
    decreases |xs|
  {
    if |xs| == 1 {
      SplitNoSep(xs[0], sep);
    } else {
      var init := xs[..|xs| - 1];
      SplitJoin(init, sep);
      SplitAppend(Join(init, sep), xs[|xs| - 1], sep);
      assert init + [xs[|xs| - 1]] == xs;
    }
  }

  lemma {:induction false} SplitNoSep(s: string, sep: char)
    requires sep !in s
    ensures Split(s, sep) == [s]
    decreases |s|
  {
    if s != [] {
      SplitNoSep(s[..|s| - 1], sep);
      assert s[..|s| - 1] + [s[|s| - 1]] == s;
    }
  }

  /** Split(a + [sep] + b) is Split(a) followed by b, when b holds no separator. */
  lemma {:induction false} SplitAppend(a: string, b: string, sep: char)
    requires sep !in b
    ensures Split(a + [sep] + b, sep) == Split(a, sep) + [b]
    decreases |b|
  {
    if b == [] {
      assert (a + [sep] + b)[..|a + [sep] + b| - 1] == a;
    } else {
      var b' := b[..|b| - 1];
      SplitAppend(a, b', sep);
      var s := a + [sep] + b;
      assert s[..|s| - 1] == a + [sep] + b';
      assert b' + [b[|b| - 1]] == b;
      assert b[|b| - 1] in b;
      var rest := Split(a, sep) + [b'];
      assert Split(s[..|s| - 1], sep) == rest;
      assert s[|s| - 1] == b[|b| - 1] != sep;
      assert Split(s, sep) == rest[..|rest| - 1] + [rest[|rest| - 1] + [s[|s| - 1]]];
      assert rest[..|rest| - 1] == Split(a, sep);
    }
  }
}
