/** The handful of Python string operations the checker relies on:
    `lower`, `startswith`, `endswith`, `rfind`, slicing, `replace`,
    `split('/')` and `str` of an integer. */
module Strings {
  import opened Wrappers

  // ---------------------------------------------------------------------
  // Case and affixes
  // ---------------------------------------------------------------------

  /** ASCII lower-casing of one character (Python 2 `str.lower` on a byte
      string in the C locale). */
  function LowerChar(c: char): char
  {
    if 'A' <= c <= 'Z' then (c as int + 32) as char else c
  }

  function Lower(s: string): string
  {
    seq(|s|, i requires 0 <= i < |s| => LowerChar(s[i]))
  }

  /** A string that `lower` leaves unchanged. */
  predicate IsLower(s: string)
  {
    forall i :: 0 <= i < |s| ==> LowerChar(s[i]) == s[i]
  }

  predicate StartsWith(s: string, prefix: string)
  {
    |prefix| <= |s| && s[..|prefix|] == prefix
  }

  predicate EndsWith(s: string, suffix: string)
  {
    |suffix| <= |s| && s[|s| - |suffix|..] == suffix
  }

  lemma LowerConcat(a: string, b: string)
    ensures Lower(a + b) == Lower(a) + Lower(b)
  {
    assert forall i :: 0 <= i < |a + b| ==> Lower(a + b)[i] == (Lower(a) + Lower(b))[i];
  }


  lemma LowerIsLower(s: string)
    ensures IsLower(Lower(s))
  {
  }

  // ---------------------------------------------------------------------
  // Occurrences and `rfind`
  // ---------------------------------------------------------------------

  predicate OccursAt(s: string, pat: string, i: int)
  {
    0 <= i && i + |pat| <= |s| && s[i..i + |pat|] == pat
  }

  ghost predicate Occurs(s: string, pat: string)
  {
    exists i :: OccursAt(s, pat, i)
  }

  /** A pattern holding a character the string lacks does not occur in it. */
  lemma AbsentChar(s: string, pat: string, k: nat)
    requires k < |pat| && pat[k] !in s
    ensures !Occurs(s, pat)
  {
    forall i | 0 <= i && i + |pat| <= |s| ensures !OccursAt(s, pat, i) {
      assert s[i..i + |pat|][k] == s[i + k];
      assert s[i + k] in s;
    }
  }

  /** The last position at or before `i` where `pat` occurs, or -1. */
  function RFindFrom(s: string, pat: string, i: int): (r: int)
    requires i <= |s| - |pat|
    ensures r == -1 || (0 <= r <= i && OccursAt(s, pat, r))
    ensures forall j :: r < j <= i ==> !OccursAt(s, pat, j)
    decreases i + 1
  {
    if i < 0 then -1
    else if s[i..i + |pat|] == pat then i
    else RFindFrom(s, pat, i - 1)
  }

  /** Python `s.rfind(pat)`: the start of the last occurrence, or -1. */
  function RFind(s: string, pat: string): (r: int)
    ensures r == -1 <==> !Occurs(s, pat)
    ensures r != -1 ==> OccursAt(s, pat, r) && forall j :: r < j ==> !OccursAt(s, pat, j)
  {
    RFindFrom(s, pat, |s| - |pat|)
  }

  /** Python `s[:k]`, including its reading of a negative `k` as counting
      from the end. */
  function SliceTo(s: string, k: int): (r: string)
    ensures 0 <= k <= |s| ==> r == s[..k]
    ensures -|s| <= k < 0 ==> r == s[..|s| + k]
  {
    if k >= 0 then (if k <= |s| then s[..k] else s)
    else if |s| + k >= 0 then s[..|s| + k]
    else []
  }

  // ---------------------------------------------------------------------
  // `replace`
  // ---------------------------------------------------------------------

  /** Python `s.replace(pat, rep)`: every occurrence, scanning left to right,
      replaced without overlap. */
  function Replace(s: string, pat: string, rep: string): string
    requires |pat| > 0
    decreases |s|
  {
    if s == [] then []
    else if StartsWith(s, pat) then rep + Replace(s[|pat|..], pat, rep)
    else [s[0]] + Replace(s[1..], pat, rep)
  }

  /** A prefix that cannot start an occurrence is copied unchanged. */
  lemma {:induction false} ReplaceSkip(a: string, b: string, pat: string, rep: string)
    requires |pat| > 0 && pat[0] !in a
    ensures Replace(a + b, pat, rep) == a + Replace(b, pat, rep)
    decreases |a|
  {
    if a != [] {
      assert (a + b)[0] == a[0] != pat[0];
      assert !StartsWith(a + b, pat);
      assert (a + b)[1..] == a[1..] + b;
      ReplaceSkip(a[1..], b, pat, rep);
    } else {
      assert a + b == b;
    }
  }

  /** A string in which the pattern does not occur is left unchanged. */
  lemma {:induction false} ReplaceAbsent(s: string, pat: string, rep: string)
    requires |pat| > 0 && !Occurs(s, pat)
    ensures Replace(s, pat, rep) == s
    decreases |s|
  {
    if s != [] {
      assert !OccursAt(s, pat, 0);
      assert !StartsWith(s, pat);
      forall j | OccursAt(s[1..], pat, j) ensures false {
        assert s[1..][j..j + |pat|] == s[j + 1..j + 1 + |pat|];
        assert OccursAt(s, pat, j + 1);
      }
      ReplaceAbsent(s[1..], pat, rep);
    }
  }

  /** An occurrence at the start of `a + b` lies wholly inside `a` when `b`
      begins with the pattern's first character and that character occurs
      nowhere else in the pattern. */
  lemma NoStraddle(a: string, b: string, pat: string)
    requires |pat| > 0 && pat[0] !in pat[1..] && a != []
    requires b == [] || b[0] == pat[0]
    requires StartsWith(a + b, pat)
    ensures |pat| <= |a|
  {
    var s := a + b;
    assert forall j :: 1 <= j < |pat| ==> pat[j] == pat[1..][j - 1];
    assert forall j :: 0 <= j < |pat| ==> s[j] == pat[j] by {
      assert s[..|pat|] == pat;
    }
    assert b != [] ==> s[|a|] == b[0];
  }

  /** When the pattern's first character occurs nowhere else in it, an
      occurrence cannot straddle a cut made just before that character, so
      `replace` distributes over the concatenation. */
  lemma {:induction false} ReplaceConcat(a: string, b: string, pat: string, rep: string)
    requires |pat| > 0 && pat[0] !in pat[1..]
    requires b == [] || b[0] == pat[0]
    ensures Replace(a + b, pat, rep) == Replace(a, pat, rep) + Replace(b, pat, rep)
    decreases |a|
  {
    if a == [] {
      assert a + b == b;
    } else if StartsWith(a + b, pat) {
      // an occurrence starting inside `a` cannot reach into `b`
      NoStraddle(a, b, pat);
      assert (a + b)[..|pat|] == a[..|pat|];
      assert (a + b)[|pat|..] == a[|pat|..] + b;
      ReplaceConcat(a[|pat|..], b, pat, rep);
    } else {
      if |a| >= |pat| {
        assert (a + b)[..|pat|] == a[..|pat|];
      }
      assert !StartsWith(a, pat);
      assert (a + b)[1..] == a[1..] + b;
      ReplaceConcat(a[1..], b, pat, rep);
    }
  }

  /** Replacing at an occurrence preceded by text free of the pattern's
      first character. */
  lemma ReplaceInfix(a: string, c: string, pat: string, rep: string)
    requires |pat| > 0 && pat[0] !in a
    ensures Replace(a + pat + c, pat, rep) == a + rep + Replace(c, pat, rep)
  {
    ReplaceSkip(a, pat + c, pat, rep);
    assert a + pat + c == a + (pat + c);
    assert StartsWith(pat + c, pat);
    assert (pat + c)[|pat|..] == c;
  }

  /** Only the first of two placeholders is `pat`: replacing it leaves the
      later one, which `pat` does not match, untouched. */
  lemma ReplaceFirstOnly(pre: string, mid: string, other: string, pat: string, rep: string)
    requires |pat| > 0 && pat[0] !in pre && pat[0] !in mid
    requires Replace(other, pat, rep) == other
    ensures Replace(pre + pat + (mid + other), pat, rep) == pre + rep + (mid + other)
  {
    ReplaceInfix(pre, mid + other, pat, rep);
    ReplaceSkip(mid, other, pat, rep);
  }

  /** A string that does not start with the pattern, and holds the pattern's
      first character nowhere after its start, is left unchanged. */
  lemma ReplaceMisses(s: string, pat: string, rep: string)
    requires |pat| > 0 && s != [] && !StartsWith(s, pat) && pat[0] !in s[1..]
    ensures Replace(s, pat, rep) == s
  {
    ReplaceSkip(s[1..], [], pat, rep);
    assert s[1..] + [] == s[1..];
  }

  /** Every character of the result comes from the input or from the
      replacement. */
  lemma {:induction false} ReplaceChars(s: string, pat: string, rep: string, x: char)
    requires |pat| > 0
    ensures x in Replace(s, pat, rep) ==> x in s || x in rep
    decreases |s|
  {
    if s != [] {
      if StartsWith(s, pat) {
        ReplaceChars(s[|pat|..], pat, rep, x);
      } else {
        ReplaceChars(s[1..], pat, rep, x);
      }
    }
  }

  lemma ReplaceKeepsLower(s: string, pat: string, rep: string)
    requires |pat| > 0 && IsLower(s) && IsLower(rep)
    ensures IsLower(Replace(s, pat, rep))
  {
    var r := Replace(s, pat, rep);
    forall i | 0 <= i < |r| ensures LowerChar(r[i]) == r[i] {
      ReplaceChars(s, pat, rep, r[i]);
    }
  }

  // ---------------------------------------------------------------------
  // `split('/')[0]` and `split('/')[1]`
  // ---------------------------------------------------------------------

  /** The first position of `c` in `s`. */
  function IndexOf(s: string, c: char): (r: Option<nat>)
    ensures r.None? <==> c !in s
    ensures r.Some? ==> r.value < |s| && s[r.value] == c && c !in s[..r.value]
  {
    if s == [] then None
    else if s[0] == c then Some(0)
    else match IndexOf(s[1..], c)
      case None => None
      case Some(k) => Some(k + 1)
  }

  /** `s.split('/')[0]`: everything before the first slash. */
  function FirstSegment(s: string): (r: string)
    ensures '/' !in r && |r| <= |s| && s[..|r|] == r
    ensures |r| < |s| ==> s[|r|] == '/'
  {
    match IndexOf(s, '/')
    case None => s
    case Some(k) => s[..k]
  }

  /** `s.split('/')[1]`: what lies between the first and the second slash;
      `None` where Python raises IndexError because there is no slash. */
  function SecondSegment(s: string): (r: Option<string>)
    ensures r.None? <==> '/' !in s
    ensures r.Some? ==>
      var k := |FirstSegment(s)| + 1;
      '/' !in r.value && k + |r.value| <= |s| && s[k..k + |r.value|] == r.value &&
      (k + |r.value| < |s| ==> s[k + |r.value|] == '/')
  {
    match IndexOf(s, '/')
    case None => None
    case Some(k) => Some(FirstSegment(s[k + 1..]))
  }

  /** Splitting undoes joining with slashes. */
  lemma SplitJoin(q: string, n: string, rest: string)
    requires '/' !in q && '/' !in n
    ensures FirstSegment(q + "/" + n + rest) == q
    ensures rest == [] || rest[0] == '/' ==> SecondSegment(q + "/" + n + rest) == Some(n)
  {
    var s := q + "/" + n + rest;
    assert s[|q|] == '/';
    assert s[..|q|] == q;
    if rest == [] || rest[0] == '/' {
      var r := SecondSegment(s).value;
      var k := |q| + 1;
      assert s[k..k + |n|] == n;
    }
  }

  // ---------------------------------------------------------------------
  // `str(i)` and its inverse
  // ---------------------------------------------------------------------

  predicate IsDigit(c: char)
  {
    '0' <= c <= '9'
  }

  predicate IsDigits(s: string)
  {
    forall i :: 0 <= i < |s| ==> IsDigit(s[i])
  }

  function DigitChar(d: nat): (c: char)
    requires d < 10
    ensures IsDigit(c) && c as int - '0' as int == d
  {
    (d + '0' as int) as char
  }

  /** Decimal rendering of a natural number, most significant digit first. */
  function NatToString(n: nat): string
    decreases n
  {
    if n < 10 then [DigitChar(n)] else NatToString(n / 10) + [DigitChar(n % 10)]
  }

  /** Python `str(i)` on an integer. */
  function IntToString(i: int): string
  {
    if i < 0 then "-" + NatToString(-i) else NatToString(i)
  }

  /** The value of a string of decimal digits. */
  function DigitsValue(s: string): nat
    requires IsDigits(s)
    decreases |s|
  {
    if s == [] then 0 else DigitsValue(s[..|s| - 1]) * 10 + (s[|s| - 1] as int - '0' as int)
  }

  /** Reading a decimal integer back: an optional minus sign followed by at
      least one digit. */
  function ParseInt(s: string): Option<int>
  {
    if |s| > 1 && s[0] == '-' && IsDigits(s[1..]) then Some(0 - DigitsValue(s[1..]) as int)
    else if |s| > 0 && IsDigits(s) then Some(DigitsValue(s))
    else None
  }

  lemma {:induction false} NatToStringDigits(n: nat)
    ensures |NatToString(n)| > 0 && IsDigits(NatToString(n))
    ensures DigitsValue(NatToString(n)) == n
    decreases n
  {
    if n >= 10 {
      NatToStringDigits(n / 10);
      var s := NatToString(n);
      assert s[..|s| - 1] == NatToString(n / 10);
    }
  }

  /** `str` never loses information: the rendering reads back as the same
      integer. */
  lemma IntToStringRoundTrip(i: int)
    ensures ParseInt(IntToString(i)) == Some(i)
  {
    if i < 0 {
      NatToStringDigits(-i);
      assert IntToString(i)[1..] == NatToString(-i);
    } else {
      NatToStringDigits(i);
    }
  }
}
