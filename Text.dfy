/** The string operations app3.py relies on: `str.lower()`, the substring test
    `needle in haystack`, and the decimal rendering of a count in an f-string. */
module Text {

  /** The capitals that `str.lower()` maps in this model: ASCII A-Z and the
      Latin-1 capitals U+00C0..U+00DE except the multiplication sign U+00D7.
      Each of them lower-cases to the character 32 code points above it. */
  predicate IsCapital(c: char)
  {
    ('A' <= c <= 'Z') || ('\U{C0}' <= c <= '\U{DE}' && c != '\U{D7}')
  }

  function LowerChar(c: char): (l: char)
    ensures !IsCapital(l)
    ensures IsCapital(c) || l == c
  {
    if IsCapital(c) then (c as int + 32) as char else c
  }

  /** `s.lower()`: every character lower-cased, length unchanged. */
  function Lower(s: string): (l: string)
    ensures |l| == |s|
    ensures forall i :: 0 <= i < |s| ==> l[i] == LowerChar(s[i])
  {
    if |s| == 0 then "" else [LowerChar(s[0])] + Lower(s[1..])
  }

  lemma LowerIdempotent(s: string)
    ensures Lower(Lower(s)) == Lower(s)
  {
    assert forall i :: 0 <= i < |s| ==> Lower(Lower(s))[i] == Lower(s)[i];
  }

  lemma LowerConcat(a: string, b: string)
    ensures Lower(a + b) == Lower(a) + Lower(b)
  {
    assert forall i :: 0 <= i < |a + b| ==> Lower(a + b)[i] == (Lower(a) + Lower(b))[i];
  }

  predicate IsPrefix(p: string, s: string)
  {
    |p| <= |s| && s[..|p|] == p
  }

  /** Python's `needle in haystack`, scanning the start positions left to right. */
  predicate Contains(haystack: string, needle: string)
    decreases |haystack|
  {
    IsPrefix(needle, haystack) || (|haystack| > 0 && Contains(haystack[1..], needle))
  }

  /** The needle is written in the haystack starting at position i. */
  ghost predicate OccursAt(needle: string, haystack: string, i: int)
  {
    0 <= i <= |haystack| - |needle| && haystack[i..i + |needle|] == needle
  }

  /** The reference meaning of the scan: the needle occurs at some position. */
  ghost predicate OccursIn(needle: string, haystack: string)
  {
    exists i :: OccursAt(needle, haystack, i)
  }

  lemma {:induction false} ContainsIffOccurs(haystack: string, needle: string)
    ensures Contains(haystack, needle) <==> OccursIn(needle, haystack)
    decreases |haystack|
  {
    if IsPrefix(needle, haystack) {
      assert OccursAt(needle, haystack, 0);
    } else if |haystack| > 0 {
      var tail := haystack[1..];
      ContainsIffOccurs(tail, needle);
      if OccursIn(needle, tail) {
        var i :| OccursAt(needle, tail, i);
        assert haystack[i + 1..i + 1 + |needle|] == needle;
        assert OccursAt(needle, haystack, i + 1);
      }
      if OccursIn(needle, haystack) {
        var i :| OccursAt(needle, haystack, i);
        if i > 0 {
          assert tail[i - 1..i - 1 + |needle|] == needle;
          assert OccursAt(needle, tail, i - 1);
        }
      }
    }
  }

  /** A string contains every string written inside it. */
  lemma ContainsInfix(a: string, needle: string, b: string)
    ensures Contains(a + needle + b, needle)
  {
    var s := a + needle + b;
    assert s[|a|..|a| + |needle|] == needle;
    assert OccursAt(needle, s, |a|);
    ContainsIffOccurs(s, needle);
  }

  /** A non-empty needle occurs only in a haystack at least as long. */
  lemma ContainsNeedsRoom(haystack: string, needle: string)
    requires Contains(haystack, needle)
    ensures |needle| <= |haystack|
  {
    ContainsIffOccurs(haystack, needle);
  }

  predicate IsDigit(c: char)
  {
    '0' <= c <= '9'
  }

  predicate AllDigits(s: string)
  {
    forall i :: 0 <= i < |s| ==> IsDigit(s[i])
  }

  function DigitChar(d: nat): (c: char)
    requires d < 10
    ensures IsDigit(c) && c as int - '0' as int == d
  {
    (d + '0' as int) as char
  }

  /** `f"{n}"` for a non-negative integer: decimal digits, no leading zero. */
  function Decimal(n: nat): (s: string)
    ensures |s| > 0 && AllDigits(s)
    ensures s[0] == '0' ==> n == 0
  {
    if n < 10 then [DigitChar(n)] else Decimal(n / 10) + [DigitChar(n % 10)]
  }

  /** The number a string of decimal digits denotes. */
  function DecimalValue(s: string): nat
    requires AllDigits(s)
  {
    if |s| == 0 then 0 else 10 * DecimalValue(s[..|s| - 1]) + (s[|s| - 1] as int - '0' as int)
  }

  /** Rendering a count and reading it back gives the count. */
  lemma {:induction false} DecimalRoundTrip(n: nat)
    ensures DecimalValue(Decimal(n)) == n
  {
    if n >= 10 {
      DecimalRoundTrip(n / 10);
      var s := Decimal(n);
      assert s[..|s| - 1] == Decimal(n / 10);
    }
  }

  /** How many times character c occurs in s. */
  function CountChar(s: string, c: char): nat
  {
    if |s| == 0 then 0 else (if s[|s| - 1] == c then 1 else 0) + CountChar(s[..|s| - 1], c)
  }

  lemma {:induction false} CountCharConcat(a: string, b: string, c: char)
    ensures CountChar(a + b, c) == CountChar(a, c) + CountChar(b, c)
    decreases |b|
  {
    if |b| > 0 {
      assert (a + b)[..|a + b| - 1] == a + b[..|b| - 1];
      CountCharConcat(a, b[..|b| - 1], c);
    } else {
      assert a + b == a;
    }
  }

  lemma {:induction false} CountCharAbsent(s: string, c: char)
    requires forall i :: 0 <= i < |s| ==> s[i] != c
    ensures CountChar(s, c) == 0
    decreases |s|
  {
    if |s| > 0 {
      CountCharAbsent(s[..|s| - 1], c);
    }
  }
}
