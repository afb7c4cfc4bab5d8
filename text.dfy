// String helpers used by the runner: ASCII lower-casing, substring search,
// Python's `split(c)[0]`, `str.replace(old, '')`, `''.join(lines)` and
// `str(int)`. Strings are sequences of characters; only ASCII letters are
// case-folded.
module Text {

  import opened Wrappers

  predicate IsUpperAscii(c: char) {
    'A' <= c <= 'Z'
  }

  function LowerChar(c: char): char {
    if IsUpperAscii(c) then (c as int + 32) as char else c
  }

  /** `s.lower()`, restricted to ASCII letters. */
  function Lower(s: string): string {
    seq(|s|, i requires 0 <= i < |s| => LowerChar(s[i]))
  }

  /** No upper-case ASCII letter occurs in `s`. */
  predicate IsLower(s: string) {
    forall i :: 0 <= i < |s| ==> !IsUpperAscii(s[i])
  }

  lemma LowerIsLower(s: string)
    ensures IsLower(Lower(s))
    ensures |Lower(s)| == |s|
    ensures forall c :: c in Lower(s) && !('a' <= c <= 'z') ==> c in s
  {
  }

  predicate StartsWith(s: string, prefix: string) {
    |prefix| <= |s| && s[..|prefix|] == prefix
  }

  predicate EndsWith(s: string, suffix: string) {
    |suffix| <= |s| && s[|s| - |suffix|..] == suffix
  }

  predicate OccursAt(s: string, sub: string, i: nat) {
    i + |sub| <= |s| && s[i..i + |sub|] == sub
  }

  /** Python's `sub in s`. */
  predicate Contains(s: string, sub: string) {
    exists i: nat | i <= |s| :: OccursAt(s, sub, i)
  }

  /** The text of `s` before its first character from `stops`, or all of `s`. */
  function PrefixUntil(s: string, stops: set<char>): (r: string)
    ensures StartsWith(s, r)
    ensures forall c :: c in r ==> c !in stops
    ensures |r| < |s| ==> s[|r|] in stops
  {
    if s == [] then []
    else if s[0] in stops then []
    else [s[0]] + PrefixUntil(s[1..], stops)
  }

  /** A prefix free of the stop characters and followed by one, or by the end, is the prefix `PrefixUntil` takes. */
  lemma {:induction false} PrefixUntilIs(s: string, stops: set<char>, p: string)
    requires StartsWith(s, p)
    requires forall c :: c in p ==> c !in stops
    requires |p| < |s| ==> s[|p|] in stops
    ensures PrefixUntil(s, stops) == p
  {
    if s != [] && s[0] !in stops {
      assert p != [] && p[0] == s[0];
      assert StartsWith(s[1..], p[1..]) by {
        assert s[1..][..|p| - 1] == s[..|p|][1..];
      }
      PrefixUntilIs(s[1..], stops, p[1..]);
      assert p == [p[0]] + p[1..];
    }
  }

  /** Python's `s.split(c)[0]`: the text before the first `c`, or all of `s`. */
  function BeforeFirst(s: string, c: char): (r: string)
    ensures StartsWith(s, r)
    ensures c !in r
    ensures |r| < |s| ==> s[|r|] == c
  {
    PrefixUntil(s, {c})
  }

  /** Python's `s.replace(pat, '')`: occurrences are removed left to right, without overlap. */
  function RemoveAll(s: string, pat: string): (r: string)
    requires pat != []
    ensures |r| <= |s|
    ensures forall c :: c in r ==> c in s
    decreases |s|
  {
    if |s| < |pat| then s
    else if s[..|pat|] == pat then RemoveAll(s[|pat|..], pat)
    else [s[0]] + RemoveAll(s[1..], pat)
  }

  /** An occurrence of the pattern at the front is removed. */
  lemma RemoveAllLeading(pat: string, t: string)
    requires pat != []
    ensures RemoveAll(pat + t, pat) == RemoveAll(t, pat)
  {
    assert (pat + t)[..|pat|] == pat;
    assert (pat + t)[|pat|..] == t;
  }

  /**
   * A stretch with no occurrence starting in it is kept as it is, and removal
   * goes on after it: together with `RemoveAllLeading`, every occurrence met
   * from left to right is removed.
   */
  lemma {:induction false} RemoveAllSkip(a: string, b: string, pat: string)
    requires pat != []
    requires forall i :: 0 <= i < |a| ==> !OccursAt(a + b, pat, i)
    ensures RemoveAll(a + b, pat) == a + RemoveAll(b, pat)
    decreases |a|
  {
    if a == [] {
      assert a + b == b;
    } else {
      NoOccurrenceShifts(a, b, pat);
      RemoveAllSkip(a[1..], b, pat);
      RemoveAllKeepsFirst(a, b, pat);
    }
  }

  /** A text without the pattern is left unchanged. */
  lemma RemoveAllAbsent(s: string, pat: string)
    requires pat != []
    requires !Contains(s, pat)
    ensures RemoveAll(s, pat) == s
  {
    forall i | 0 <= i < |s|
      ensures !OccursAt(s + [], pat, i)
    {
      assert s + [] == s;
    }
    RemoveAllSkip(s, [], pat);
    assert s + [] == s;
  }

  lemma NoOccurrenceShifts(a: string, b: string, pat: string)
    requires a != []
    requires forall i :: 0 <= i < |a| ==> !OccursAt(a + b, pat, i)
    ensures forall i :: 0 <= i < |a[1..]| ==> !OccursAt(a[1..] + b, pat, i)
  {
    var s := a + b;
    assert s[1..] == a[1..] + b;
    forall i | 0 <= i < |a[1..]|
      ensures !OccursAt(a[1..] + b, pat, i)
    {
      assert !OccursAt(s, pat, i + 1);
      if i + |pat| <= |s[1..]| {
        assert s[1..][i..i + |pat|] == s[i + 1..i + 1 + |pat|];
      }
    }
  }

  /** Where no occurrence starts at the front, the first character is kept. */
  lemma RemoveAllKeepsFirst(a: string, b: string, pat: string)
    requires pat != [] && a != []
    requires !OccursAt(a + b, pat, 0)
    requires RemoveAll(a[1..] + b, pat) == a[1..] + RemoveAll(b, pat)
    ensures RemoveAll(a + b, pat) == a + RemoveAll(b, pat)
  {
    var s := a + b;
    assert s[1..] == a[1..] + b;
    if |s| < |pat| {
      assert RemoveAll(s[1..], pat) == s[1..];
    }
    assert RemoveAll(s, pat) == [a[0]] + RemoveAll(a[1..] + b, pat);
    assert [a[0]] + (a[1..] + RemoveAll(b, pat)) == a + RemoveAll(b, pat);
  }

  /** Python's `''.join(lines)`. */
  function Concat(lines: seq<string>): string {
    if lines == [] then "" else Concat(lines[..|lines| - 1]) + lines[|lines| - 1]
  }

  /** Every joined line is found, in place, inside the joined text. */
  lemma {:induction false} ConcatContainsEach(lines: seq<string>)
    ensures forall k :: 0 <= k < |lines| ==> Contains(Concat(lines), lines[k])
  {
    if lines != [] {
      var front := lines[..|lines| - 1];
      var last := lines[|lines| - 1];
      ConcatContainsEach(front);
      var whole := Concat(lines);
      assert whole == Concat(front) + last;
      forall k | 0 <= k < |lines|
        ensures Contains(whole, lines[k])
      {
        if k == |lines| - 1 {
          assert OccursAt(whole, last, |Concat(front)|);
        } else {
          assert lines[k] == front[k];
          var i: nat :| OccursAt(Concat(front), front[k], i);
          OccursInExtension(Concat(front), last, front[k], i);
        }
      }
    }
  }

  /** A text that lacks one of a prefix's characters does not start with that prefix. */
  lemma MissingCharNotPrefix(s: string, prefix: string, i: nat)
    requires i < |prefix| && prefix[i] !in s
    ensures !StartsWith(s, prefix)
  {
    if |prefix| <= |s| {
      assert s[..|prefix|][i] == s[i];
    }
  }

  lemma OccursInExtension(s: string, more: string, sub: string, i: nat)
    requires OccursAt(s, sub, i)
    ensures OccursAt(s + more, sub, i)
  {
  }

  predicate IsDigit(c: char) {
    '0' <= c <= '9'
  }

  predicate AllDigits(s: string) {
    forall i :: 0 <= i < |s| ==> IsDigit(s[i])
  }

  function DigitChar(d: nat): char
    requires d < 10
  {
    ('0' as int + d) as char
  }

  /** Python's `str(n)` for a non-negative integer: decimal, no leading zeros. */
  function NatToDecimal(n: nat): (r: string)
    ensures r != [] && AllDigits(r)
    ensures |r| > 1 ==> r[0] != '0'
    decreases n
  {
    if n < 10 then [DigitChar(n)] else NatToDecimal(n / 10) + [DigitChar(n % 10)]
  }

  /** Python's `str(n)` for any integer. */
  function IntToDecimal(n: int): string {
    if n < 0 then "-" + NatToDecimal(-n) else NatToDecimal(n)
  }

  /** The value of a string of decimal digits (reads it as `int(s)` does). */
  function DecimalValue(s: string): nat
    requires AllDigits(s)
  {
    if s == [] then 0
    else DecimalValue(s[..|s| - 1]) * 10 + (s[|s| - 1] as int - '0' as int)
  }

  /** `int(s)` for what `str` produces: an optional minus sign, then digits. */
  function ParseInt(s: string): Option<int> {
    if s != [] && s[0] == '-' && s[1..] != [] && AllDigits(s[1..]) then Some(-(DecimalValue(s[1..]) as int))
    else if s != [] && AllDigits(s) then Some(DecimalValue(s))
    else None
  }

  lemma {:induction false} NatDecimalRoundTrip(n: nat)
    ensures DecimalValue(NatToDecimal(n)) == n
    decreases n
  {
    if n >= 10 {
      NatDecimalRoundTrip(n / 10);
      var s := NatToDecimal(n);
      assert s[..|s| - 1] == NatToDecimal(n / 10);
    }
  }

  /** Printing an integer and reading it back gives the same integer. */
  lemma IntDecimalRoundTrip(n: int)
    ensures ParseInt(IntToDecimal(n)) == Some(n)
  {
    if n < 0 {
      NatDecimalRoundTrip(-n);
      assert IntToDecimal(n)[1..] == NatToDecimal(-n);
    } else {
      NatDecimalRoundTrip(n);
    }
  }
}
