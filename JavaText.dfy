/**
 * The few pieces of the Java class library that the login receiver and the
 * launch command builder rely on for their text: Integer.toString (what string
 * concatenation and String.valueOf write for an int), the search for a literal
 * substring (String.contains, and Matcher.find for a pattern without
 * metacharacters) and String.replace.
 */
module JavaText {
  import opened Wrappers

  /** A Java int (java.lang.Integer when it is not null). */
  type Int32 = x: int | -0x8000_0000 <= x < 0x8000_0000

  // ---------------------------------------------------------------------------
  // Decimal numerals

  predicate IsDigit(c: char) {
    '0' <= c <= '9'
  }

  /** A non-empty run of decimal digits. */
  predicate IsDigits(s: string) {
    |s| > 0 && forall k :: 0 <= k < |s| ==> IsDigit(s[k])
  }

  function DigitChar(d: nat): (c: char)
    requires d < 10
    ensures IsDigit(c) && c as int - '0' as int == d
  {
    ('0' as int + d) as char
  }

  function DigitValue(c: char): (d: nat)
    requires IsDigit(c)
    ensures d < 10 && DigitChar(d) == c
  {
    c as int - '0' as int
  }

  /** The decimal numeral of a non-negative integer: digits only, no leading zero. */
  function NatToDecimal(n: nat): (s: string)
    ensures IsDigits(s)
    ensures s[0] == '0' <==> n == 0
    ensures n == 0 ==> s == "0"
    decreases n
  {
    if n < 10 then [DigitChar(n)] else NatToDecimal(n / 10) + [DigitChar(n % 10)]
  }

  /** Integer.toString: a '-' before the numeral of the magnitude when negative. */
  function IntToDecimal(i: int): (s: string)
    ensures |s| > 0
    ensures s[0] == '-' <==> i < 0
  {
    if i < 0 then "-" + NatToDecimal(-i) else NatToDecimal(i)
  }

  /** The value of a string of digits, most significant first. */
  function DigitsValue(s: string): nat
    requires forall k :: 0 <= k < |s| ==> IsDigit(s[k])
    decreases |s|
  {
    if s == [] then 0 else DigitsValue(s[..|s| - 1]) * 10 + DigitValue(s[|s| - 1])
  }

  /**
   * Reads back a numeral written by IntToDecimal: an optional '-' and then a
   * non-empty run of digits. Anything else is None.
   */
  function ParseDecimal(s: string): Option<int> {
    if |s| > 0 && s[0] == '-' then
      if IsDigits(s[1..]) then Some(0 - DigitsValue(s[1..]) as int) else None
    else if IsDigits(s) then Some(DigitsValue(s) as int)
    else None
  }

  /** A numeral with no superfluous leading zero. */
  predicate IsCanonicalDigits(s: string) {
    IsDigits(s) && (s[0] == '0' ==> |s| == 1)
  }

  lemma {:induction false} NatToDecimalValue(n: nat)
    ensures DigitsValue(NatToDecimal(n)) == n
    decreases n
  {
    if n >= 10 {
      var p := NatToDecimal(n / 10);
      var s := NatToDecimal(n);
      assert s == p + [DigitChar(n % 10)];
      assert s[..|s| - 1] == p;
      NatToDecimalValue(n / 10);
    }
  }

  /** Reading back what Integer.toString wrote gives the same int. */
  lemma IntToDecimalRoundTrip(i: int)
    ensures ParseDecimal(IntToDecimal(i)) == Some(i)
  {
    if i < 0 {
      var s := IntToDecimal(i);
      assert s[1..] == NatToDecimal(-i);
      NatToDecimalValue(-i);
    } else {
      NatToDecimalValue(i);
    }
  }

  lemma {:induction false} LeadingDigitPositive(s: string)
    requires IsDigits(s) && s[0] != '0'
    ensures DigitsValue(s) >= 1
    decreases |s|
  {
    if |s| > 1 {
      LeadingDigitPositive(s[..|s| - 1]);
    }
  }

  /** Conversely, every canonical numeral is what NatToDecimal writes for its value. */
  lemma {:induction false} CanonicalDigitsRoundTrip(s: string)
    requires IsCanonicalDigits(s)
    ensures NatToDecimal(DigitsValue(s)) == s
    decreases |s|
  {
    if |s| > 1 {
      var p := s[..|s| - 1];
      var d := DigitValue(s[|s| - 1]);
      assert p[0] == s[0];
      LeadingDigitPositive(p);
      CanonicalDigitsRoundTrip(p);
      var v := DigitsValue(s);
      assert v == DigitsValue(p) * 10 + d;
      assert v / 10 == DigitsValue(p) && v % 10 == d;
      assert s == p + [s[|s| - 1]];
    }
  }

  // ---------------------------------------------------------------------------
  // Literal substrings

  /** t occurs in s starting at index i. */
  predicate OccursAt(s: string, t: string, i: nat) {
    i + |t| <= |s| && s[i..i + |t|] == t
  }

  /** The first occurrence of t in s at or after from (String.indexOf(t, from)). */
  function IndexOf(s: string, t: string, from: nat): (r: Option<nat>)
    requires from <= |s|
    ensures r.Some? ==> from <= r.value && OccursAt(s, t, r.value)
    ensures forall j: nat :: from <= j && (r.None? || j < r.value) ==> !OccursAt(s, t, j)
    decreases |s| - from
  {
    if OccursAt(s, t, from) then Some(from)
    else if from == |s| then None
    else IndexOf(s, t, from + 1)
  }

  /** String.contains, and Matcher.find() for a pattern that is a plain literal. */
  predicate Contains(s: string, t: string) {
    IndexOf(s, t, 0).Some?
  }

  lemma OccursAfterFirst(s: string, t: string, j: nat)
    requires |s| > 0
    ensures OccursAt(s[1..], t, j) <==> OccursAt(s, t, j + 1)
  {
    if j + |t| <= |s[1..]| {
      assert s[1..][j..j + |t|] == s[j + 1..j + 1 + |t|];
    }
  }

  // ---------------------------------------------------------------------------
  // String.replace

  /**
   * String.replace(t, r) for a non-empty target: scanning from the left,
   * every occurrence of t that does not overlap an earlier replaced one is
   * replaced by r.
   */
  function ReplaceAll(s: string, t: string, r: string): string
    requires |t| > 0
    decreases |s|
  {
    if OccursAt(s, t, 0) then r + ReplaceAll(s[|t|..], t, r)
    else if s == [] then []
    else [s[0]] + ReplaceAll(s[1..], t, r)
  }

  /** Without an occurrence of the target the text is returned unchanged. */
  lemma {:induction false} ReplaceAllAbsent(s: string, t: string, r: string)
    requires |t| > 0 && !Contains(s, t)
    ensures ReplaceAll(s, t, r) == s
    decreases |s|
  {
    assert !OccursAt(s, t, 0);
    if s != [] {
      forall j: nat | j <= |s[1..]| ensures !OccursAt(s[1..], t, j) {
        OccursAfterFirst(s, t, j);
      }
      assert !Contains(s[1..], t);
      ReplaceAllAbsent(s[1..], t, r);
    }
  }

  /** The first occurrence is replaced, and the rest is processed after it. */
  lemma {:induction false} ReplaceAllFirst(s: string, t: string, r: string, i: nat)
    requires |t| > 0 && OccursAt(s, t, i)
    requires forall j: nat :: j < i ==> !OccursAt(s, t, j)
    ensures ReplaceAll(s, t, r) == s[..i] + r + ReplaceAll(s[i + |t|..], t, r)
    decreases i
  {
    if i > 0 {
      var rest := ReplaceAll(s[i + |t|..], t, r);
      assert ReplaceAll(s[1..], t, r) == s[1..][..i - 1] + r + rest by {
        TailHasFirstOccurrence(s, t, i);
        ReplaceAllFirst(s[1..], t, r, i - 1);
        assert s[1..][i - 1 + |t|..] == s[i + |t|..];
      }
      ReplaceAllPassOver(s, t, r);
      ConsSlice(s, i, r, rest);
    } else {
      assert s[..0] + r == r;
    }
  }

  /** Where t does not occur at the start, the first character is kept as it is. */
  lemma ReplaceAllPassOver(s: string, t: string, r: string)
    requires |t| > 0 && s != [] && !OccursAt(s, t, 0)
    ensures ReplaceAll(s, t, r) == [s[0]] + ReplaceAll(s[1..], t, r)
  {
  }

  lemma ConsSlice(s: string, i: nat, r: string, rest: string)
    requires 0 < i <= |s|
    ensures [s[0]] + (s[1..][..i - 1] + r + rest) == s[..i] + r + rest
  {
    assert [s[0]] + s[1..][..i - 1] == s[..i];
  }

  /** Dropping the first character keeps the first occurrence first. */
  lemma TailHasFirstOccurrence(s: string, t: string, i: nat)
    requires |t| > 0 && OccursAt(s, t, i) && i > 0
    requires forall j: nat :: j < i ==> !OccursAt(s, t, j)
    ensures OccursAt(s[1..], t, i - 1)
    ensures forall j: nat :: j < i - 1 ==> !OccursAt(s[1..], t, j)
  {
    OccursAfterFirst(s, t, i - 1);
    forall j: nat | j < i - 1 ensures !OccursAt(s[1..], t, j) {
      OccursAfterFirst(s, t, j);
    }
  }
}
