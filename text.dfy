/**
 * The Python string operations the cache keys are built from: `str.lower`,
 * `str.upper`, `str.strip`, `str(int)` and the zero-padded numerals of dates.
 * Case mapping covers the ASCII letters; the whitespace set is the full set
 * of code points for which Python's `str.isspace` holds.
 */
module Text {

  // ---------------------------------------------------------------------
  // Case mapping
  // ---------------------------------------------------------------------

  predicate IsAsciiUpper(c: char) { 'A' <= c <= 'Z' }
  predicate IsAsciiLower(c: char) { 'a' <= c <= 'z' }

  function LowerChar(c: char): (r: char)
    ensures !IsAsciiUpper(r)
    ensures IsAsciiUpper(c) || r == c
  {
    if IsAsciiUpper(c) then (c as int + 32) as char else c
  }

  function UpperChar(c: char): (r: char)
    ensures !IsAsciiLower(r)
    ensures IsAsciiLower(c) || r == c
  {
    if IsAsciiLower(c) then (c as int - 32) as char else c
  }

  /** `s.lower()`: every character mapped, length kept. */
  function Lower(s: string): (r: string)
    ensures |r| == |s|
    ensures forall i :: 0 <= i < |s| ==> r[i] == LowerChar(s[i])
  {
    if s == [] then [] else [LowerChar(s[0])] + Lower(s[1..])
  }

  /** `s.upper()`: every character mapped, length kept. */
  function Upper(s: string): (r: string)
    ensures |r| == |s|
    ensures forall i :: 0 <= i < |s| ==> r[i] == UpperChar(s[i])
  {
    if s == [] then [] else [UpperChar(s[0])] + Upper(s[1..])
  }

  predicate IsAsciiLetter(c: char) { IsAsciiUpper(c) || IsAsciiLower(c) }

  /** Two characters that are equal, or are the two cases of one ASCII letter (32 code points apart). */
  predicate SameUpToCase(x: char, y: char) {
    x == y || (IsAsciiLetter(x) && IsAsciiLetter(y) && (x as int - y as int == 32 || y as int - x as int == 32))
  }

  /** Two strings that differ at most in the case of their letters. */
  ghost predicate CaseVariant(a: string, b: string) {
    |a| == |b| && forall i :: 0 <= i < |a| ==> SameUpToCase(a[i], b[i])
  }

  /** Lower-casing a character identifies exactly its two cases. */
  lemma LowerCharAgree(x: char, y: char)
    ensures LowerChar(x) == LowerChar(y) <==> SameUpToCase(x, y)
  {
  }

  /** Lower-casing identifies exactly the case variants. */
  lemma LowerIdentifiesCaseVariants(a: string, b: string)
    ensures Lower(a) == Lower(b) <==> CaseVariant(a, b)
  {
    if CaseVariant(a, b) {
      forall i | 0 <= i < |a| ensures Lower(a)[i] == Lower(b)[i] {
        LowerCharAgree(a[i], b[i]);
      }
    }
    if Lower(a) == Lower(b) {
      forall i | 0 <= i < |a| ensures SameUpToCase(a[i], b[i]) {
        LowerCharAgree(a[i], b[i]);
      }
    }
  }

  lemma CaseFoldAgree(x: char, y: char)
    ensures LowerChar(x) == LowerChar(y) <==> UpperChar(x) == UpperChar(y)
  {
  }

  /** Upper-casing also identifies case variants (and no more). */
  lemma UpperIdentifiesCaseVariants(a: string, b: string)
    ensures Upper(a) == Upper(b) <==> CaseVariant(a, b)
  {
    if CaseVariant(a, b) {
      forall i | 0 <= i < |a| ensures Upper(a)[i] == Upper(b)[i] {
        LowerCharAgree(a[i], b[i]);
        CaseFoldAgree(a[i], b[i]);
      }
    }
    if Upper(a) == Upper(b) {
      forall i | 0 <= i < |a| ensures SameUpToCase(a[i], b[i]) {
        CaseFoldAgree(a[i], b[i]);
        LowerCharAgree(a[i], b[i]);
      }
    }
  }

  // ---------------------------------------------------------------------
  // Whitespace stripping
  // ---------------------------------------------------------------------

  /** The code points for which Python's `str.isspace` holds. */
  const SPACE_CODES: set<int> :=
    (set n | 9 <= n <= 13) + (set n | 28 <= n <= 32) + (set n | 0x2000 <= n <= 0x200A)
    + {0x85, 0xA0, 0x1680, 0x2028, 0x2029, 0x202F, 0x205F, 0x3000}

  /** Python's `str.isspace` on one character. */
  predicate IsSpace(c: char) {
    c as int in SPACE_CODES
  }

  predicate AllSpace(s: string) {
    forall i :: 0 <= i < |s| ==> IsSpace(s[i])
  }

  /** Neither end of `s` is whitespace. */
  predicate Trimmed(s: string) {
    s == [] || (!IsSpace(s[0]) && !IsSpace(s[|s| - 1]))
  }

  /** The first index at or after `k` that does not hold whitespace (or `|s|`). */
  function SkipSpaceFrom(s: string, k: nat): (n: nat)
    requires k <= |s|
    ensures k <= n <= |s|
    ensures forall i :: k <= i < n ==> IsSpace(s[i])
    ensures n == |s| || !IsSpace(s[n])
    decreases |s| - k
  {
    if k < |s| && IsSpace(s[k]) then SkipSpaceFrom(s, k + 1) else k
  }

  /** The end of `s[lo..k]` once its trailing whitespace is dropped. */
  function SkipSpaceBack(s: string, lo: nat, k: nat): (n: nat)
    requires lo <= k <= |s|
    ensures lo <= n <= k
    ensures forall i :: n <= i < k ==> IsSpace(s[i])
    ensures n == lo || !IsSpace(s[n - 1])
  {
    if k > lo && IsSpace(s[k - 1]) then SkipSpaceBack(s, lo, k - 1) else k
  }

  /** `s.strip()`: drop the leading whitespace, then the trailing whitespace of what is left. */
  function Strip(s: string): (r: string)
    ensures Trimmed(r)
  {
    var i := SkipSpaceFrom(s, 0);
    s[i..SkipSpaceBack(s, i, |s|)]
  }

  /** What `Strip` drops at either end is whitespace, and what it keeps is one piece of `s`. */
  lemma StripShape(s: string) returns (i: nat, j: nat)
    ensures i <= j <= |s| && AllSpace(s[..i]) && AllSpace(s[j..]) && Strip(s) == s[i..j]
  {
    i := SkipSpaceFrom(s, 0);
    j := SkipSpaceBack(s, i, |s|);
  }

  /** The index where the whitespace run starting at `k` ends is fixed by the first non-space at or after `k`. */
  lemma SkipSpaceFromAt(s: string, k: nat, m: nat)
    requires k <= m <= |s|
    requires forall i :: k <= i < m ==> IsSpace(s[i])
    requires m == |s| || !IsSpace(s[m])
    ensures SkipSpaceFrom(s, k) == m
  {
    var n := SkipSpaceFrom(s, k);
  }

  lemma SkipSpaceBackAt(s: string, lo: nat, k: nat, m: nat)
    requires lo <= m <= k <= |s|
    requires forall i :: m <= i < k ==> IsSpace(s[i])
    requires m == lo || !IsSpace(s[m - 1])
    ensures SkipSpaceBack(s, lo, k) == m
  {
    var n := SkipSpaceBack(s, lo, k);
  }

  /** `Strip` returns the trimmed core of any string framed by whitespace: its characteristic property. */
  lemma StripOf(w1: string, c: string, w2: string)
    requires AllSpace(w1) && AllSpace(w2) && Trimmed(c)
    ensures Strip(w1 + c + w2) == c
  {
    var s := w1 + c + w2;
    if c == [] {
      SkipSpaceFromAt(s, 0, |s|);
      SkipSpaceBackAt(s, |s|, |s|, |s|);
    } else {
      SkipSpaceFromAt(s, 0, |w1|);
      SkipSpaceBackAt(s, |w1|, |s|, |w1| + |c|);
      assert s[|w1|..|w1| + |c|] == c;
    }
  }

  /** Cutting `s` at `i` and `j` and regrouping the pieces with its neighbours. */
  lemma Regroup<T>(w1: seq<T>, s: seq<T>, w2: seq<T>, i: nat, j: nat)
    requires i <= j <= |s|
    ensures w1 + s + w2 == (w1 + s[..i]) + s[i..j] + (s[j..] + w2)
  {
    assert s == s[..i] + s[i..j] + s[j..];
  }

  lemma AllSpaceConcat(a: string, b: string)
    requires AllSpace(a) && AllSpace(b)
    ensures AllSpace(a + b)
  {
  }

  /** Surrounding whitespace does not change what `strip` returns. */
  lemma {:induction false} StripIgnoresSurroundingSpace(w1: string, s: string, w2: string)
    requires AllSpace(w1) && AllSpace(w2)
    ensures Strip(w1 + s + w2) == Strip(s)
  {
    var i, j := StripShape(s);
    AllSpaceConcat(w1, s[..i]);
    AllSpaceConcat(s[j..], w2);
    Regroup(w1, s, w2, i, j);
    StripOf(w1 + s[..i], s[i..j], s[j..] + w2);
  }

  /** Lower-casing keeps every whitespace character and creates no new one. */
  lemma LowerKeepsSpace(c: char)
    ensures IsSpace(LowerChar(c)) == IsSpace(c)
  {
    if IsAsciiUpper(c) {
      assert LowerChar(c) as int !in SPACE_CODES;
    }
  }

  /** Two strings with whitespace at the same places are stripped at the same places. */
  lemma StripSameSpacing(s: string, t: string) returns (i: nat, j: nat)
    requires |s| == |t|
    requires forall k :: 0 <= k < |s| ==> IsSpace(t[k]) == IsSpace(s[k])
    ensures i <= j <= |s| && Strip(s) == s[i..j] && Strip(t) == t[i..j]
  {
    i := SkipSpaceFrom(s, 0);
    j := SkipSpaceBack(s, i, |s|);
    SkipSpaceFromAt(t, 0, i);
    SkipSpaceBackAt(t, i, |t|, j);
  }

  /** Case mapping never turns whitespace into a letter or back, so `lower` and `strip` commute. */
  lemma {:induction false} LowerStripCommute(s: string)
    ensures Lower(Strip(s)) == Strip(Lower(s))
  {
    var t := Lower(s);
    forall k | 0 <= k < |s| ensures IsSpace(t[k]) == IsSpace(s[k]) {
      LowerKeepsSpace(s[k]);
    }
    var i, j := StripSameSpacing(s, t);
    assert Lower(s[i..j]) == t[i..j];
  }

  // ---------------------------------------------------------------------
  // Decimal numerals: str(int)
  // ---------------------------------------------------------------------

  predicate IsDigit(c: char) { '0' <= c <= '9' }

  function DigitChar(d: int): (c: char)
    requires 0 <= d < 10
    ensures IsDigit(c)
  {
    ('0' as int + d) as char
  }

  function DigitValue(c: char): (d: nat)
    requires IsDigit(c)
    ensures d < 10 && DigitChar(d) == c
  {
    c as int - '0' as int
  }

  /** The value of a string of decimal digits (most significant first). */
  function ParseDigits(s: string): nat
    requires forall i :: 0 <= i < |s| ==> IsDigit(s[i])
  {
    if s == [] then 0 else ParseDigits(s[..|s| - 1]) * 10 + DigitValue(s[|s| - 1])
  }

  /** `str(n)` for a non-negative `n`: digits only, no leading zero. */
  function NatToString(n: nat): (r: string)
    ensures |r| >= 1
    ensures forall i :: 0 <= i < |r| ==> IsDigit(r[i])
    ensures r[0] == '0' <==> n == 0
  {
    if n < 10 then [DigitChar(n)] else NatToString(n / 10) + [DigitChar(n % 10)]
  }

  /** Reading back the numeral gives the number. */
  lemma {:induction false} ParseNatToString(n: nat)
    ensures ParseDigits(NatToString(n)) == n
  {
    var r := NatToString(n);
    if n >= 10 {
      assert r[..|r| - 1] == NatToString(n / 10);
      ParseNatToString(n / 10);
    } else {
      assert r[..0] == [];
    }
  }

  /** `str(n)` for any integer: a minus sign for negative numbers. */
  function IntToString(n: int): (r: string)
    ensures |r| >= 1
    ensures r[0] == '-' <==> n < 0
    ensures forall i :: 0 <= i < |r| ==> IsDigit(r[i]) || (i == 0 && n < 0)
    ensures n >= 0 ==> ParseDigits(r) == n
    ensures n < 0 ==> ParseDigits(r[1..]) == -n
  {
    if n < 0 then
      ParseNatToString(-n);
      assert ("-" + NatToString(-n))[1..] == NatToString(-n);
      "-" + NatToString(-n)
    else
      ParseNatToString(n);
      NatToString(n)
  }

  /** Two integers with the same numeral are equal. */
  lemma IntToStringInjective(a: int, b: int)
    ensures IntToString(a) == IntToString(b) <==> a == b
  {
    if IntToString(a) == IntToString(b) {
      if a < 0 {
        assert NatToString(-a) == IntToString(a)[1..] == IntToString(b)[1..] == NatToString(-b);
        ParseNatToString(-a);
        ParseNatToString(-b);
      } else {
        ParseNatToString(a);
        ParseNatToString(b);
      }
    }
  }

  // ---------------------------------------------------------------------
  // Separators
  // ---------------------------------------------------------------------

  predicate Free(s: string, sep: char) {
    forall i :: 0 <= i < |s| ==> s[i] != sep
  }

  /** A decimal numeral never contains a colon. */
  lemma IntToStringHasNoColon(n: int)
    ensures Free(IntToString(n), ':')
  {
  }

  /** Two splits of one sequence with equally long tails are the same split. */
  lemma SameSuffix<T>(a: seq<T>, b: seq<T>, c: seq<T>, d: seq<T>)
    requires a + b == c + d && |b| == |d|
    ensures a == c && b == d
  {
    assert a == (a + b)[..|a|];
    assert c == (c + d)[..|c|];
    assert b == (a + b)[|a|..];
    assert d == (c + d)[|c|..];
  }

  /** A separator followed by a separator-free tail marks the tail uniquely. */
  lemma SplitAtLast(p1: string, t1: string, p2: string, t2: string, sep: char)
    requires Free(t1, sep) && Free(t2, sep)
    requires p1 + [sep] + t1 == p2 + [sep] + t2
    ensures p1 == p2 && t1 == t2
  {
    var s := p1 + [sep] + t1;
    assert s[|p1|] == sep && s[|p2|] == sep;
    assert p1 == s[..|p1|];
    assert t1 == s[|p1| + 1..];
  }

  // ---------------------------------------------------------------------
  // Zero-padded numerals: the `%0<width>d` format
  // ---------------------------------------------------------------------

  function Pow10(w: nat): (p: nat)
    ensures p >= 1
  {
    if w == 0 then 1 else 10 * Pow10(w - 1)
  }

  /** The last `width` decimal digits of `n`, most significant first. */
  function PadDigits(n: nat, width: nat): (r: string)
    ensures |r| == width
    ensures forall i :: 0 <= i < |r| ==> IsDigit(r[i])
  {
    if width == 0 then [] else PadDigits(n / 10, width - 1) + [DigitChar(n % 10)]
  }

  /** A number below `10^width` is read back from its padded numeral. */
  lemma {:induction false} ParsePadDigits(n: nat, width: nat)
    requires n < Pow10(width)
    ensures ParseDigits(PadDigits(n, width)) == n
  {
    var r := PadDigits(n, width);
    if width > 0 {
      assert r[..|r| - 1] == PadDigits(n / 10, width - 1);
      assert n / 10 < Pow10(width - 1);
      ParsePadDigits(n / 10, width - 1);
    }
  }
}
