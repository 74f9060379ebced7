/**
 * The handful of Python string built-ins the upload loop relies on, written
 * out over `seq<char>`: `os.path.basename`, `str.lower`, `str.endswith`, the
 * substring test `t in s`, and `str(n)` for the integer FTP port.
 */
module Text {

  /** `path.rfind('/')` over the first `n` characters: the index of the last '/', or -1. */
  function LastSlash(path: string, n: nat): (k: int)
    requires n <= |path|
    ensures -1 <= k < n
    ensures k >= 0 ==> path[k] == '/'
    ensures forall j :: k < j < n ==> path[j] != '/'
  {
    if n == 0 then -1 else if path[n - 1] == '/' then n - 1 else LastSlash(path, n - 1)
  }

  /** `os.path.basename` on POSIX: everything after the last '/'. */
  function Basename(path: string): string
  {
    path[LastSlash(path, |path|) + 1..]
  }

  /**
   * The basename is the longest suffix of the path without a '/': it has no
   * separator, and whatever precedes it ends in one.
   */
  lemma BasenameIsLastComponent(path: string)
    ensures var name := Basename(path);
      |name| <= |path| && name == path[|path| - |name|..] && '/' !in name
      && (|name| < |path| ==> path[|path| - |name| - 1] == '/')
  {
  }

  /** A path without a separator is its own basename. */
  lemma BasenameOfPlainName(path: string)
    requires '/' !in path
    ensures Basename(path) == path
  {
  }

  /** `str.lower` restricted to the ASCII letters. */
  function LowerChar(c: char): char
  {
    if 'A' <= c <= 'Z' then (c as int - 'A' as int + 'a' as int) as char else c
  }

  function Lower(s: string): string
  {
    seq(|s|, i requires 0 <= i < |s| => LowerChar(s[i]))
  }

  /**
   * Only the ASCII capitals change: the result has the same length, no
   * capital letter, and every other character is kept where it was.
   */
  lemma LowerFoldsOnlyCapitals(s: string)
    ensures |Lower(s)| == |s|
    ensures forall i :: 0 <= i < |s| ==> !('A' <= Lower(s)[i] <= 'Z')
    ensures forall i :: 0 <= i < |s| && !('A' <= s[i] <= 'Z') ==> Lower(s)[i] == s[i]
    ensures forall i :: 0 <= i < |s| && 'A' <= s[i] <= 'Z' ==> Lower(s)[i] as int == s[i] as int + 32
  {
  }

  /** Lowering twice is lowering once. */
  lemma LowerIdempotent(s: string)
    ensures Lower(Lower(s)) == Lower(s)
  {
  }

  /** `s.endswith(suffix)`. */
  predicate EndsWith(s: string, suffix: string)
  {
    |suffix| <= |s| && s[|s| - |suffix|..] == suffix
  }

  predicate StartsWith(s: string, prefix: string)
  {
    |prefix| <= |s| && s[..|prefix|] == prefix
  }

  /** Python's `t in s` for strings, computed by scanning `s` from the left. */
  predicate Contains(s: string, t: string)
    decreases |s|
  {
    StartsWith(s, t) || (|s| > 0 && Contains(s[1..], t))
  }

  /** `t` occurs in `s` starting at index `i`. */
  ghost predicate OccursAt(s: string, t: string, i: int)
  {
    0 <= i && i + |t| <= |s| && s[i..i + |t|] == t
  }

  /** The scan finds `t` exactly when `t` occurs somewhere in `s`. */
  lemma {:induction false} ContainsIffOccurs(s: string, t: string)
    ensures Contains(s, t) <==> exists i :: OccursAt(s, t, i)
    decreases |s|
  {
    assert StartsWith(s, t) <==> OccursAt(s, t, 0);
    if |s| > 0 {
      ContainsIffOccurs(s[1..], t);
      forall j | 0 <= j
        ensures OccursAt(s[1..], t, j) <==> OccursAt(s, t, j + 1)
      {
        if j + |t| <= |s| - 1 {
          assert s[1..][j..j + |t|] == s[j + 1..j + 1 + |t|];
        }
      }
      if Contains(s, t) && !StartsWith(s, t) {
        var j :| OccursAt(s[1..], t, j);
        assert OccursAt(s, t, j + 1);
      }
      if exists i :: OccursAt(s, t, i) {
        var i :| OccursAt(s, t, i);
        if i > 0 {
          assert OccursAt(s[1..], t, i - 1);
        }
      }
    }
  }

  predicate IsDigit(c: char)
  {
    '0' <= c <= '9'
  }

  function DigitValue(c: char): nat
    requires IsDigit(c)
  {
    c as int - '0' as int
  }

  function DigitChar(d: nat): char
    requires d < 10
  {
    ('0' as int + d) as char
  }

  /** The decimal digits of `n`, most significant first, without leading zeros. */
  function NatDigits(n: nat): (s: string)
    ensures |s| >= 1
    ensures forall i :: 0 <= i < |s| ==> IsDigit(s[i])
    ensures s[0] == '0' ==> n == 0
    decreases n
  {
    if n < 10 then [DigitChar(n)] else NatDigits(n / 10) + [DigitChar(n % 10)]
  }

  /** `str(n)` for a Python `int`: a leading '-' for negative values. */
  function DecimalString(n: int): string
  {
    if n < 0 then "-" + NatDigits(-n) else NatDigits(n)
  }

  /** The value a string of decimal digits denotes (what `int(s)` computes). */
  function DigitsValue(s: string): nat
    requires forall i :: 0 <= i < |s| ==> IsDigit(s[i])
  {
    if s == [] then 0 else DigitsValue(s[..|s| - 1]) * 10 + DigitValue(s[|s| - 1])
  }

  /** Reading the digits back gives the number that was formatted. */
  lemma {:induction false} NatDigitsRoundTrip(n: nat)
    ensures DigitsValue(NatDigits(n)) == n
    decreases n
  {
    if n >= 10 {
      var s := NatDigits(n);
      NatDigitsRoundTrip(n / 10);
      assert s[..|s| - 1] == NatDigits(n / 10);
    }
  }

  /** A non-negative port is rendered as its plain digits, which read back as the port. */
  lemma DecimalStringOfNat(n: int)
    requires n >= 0
    ensures var s := DecimalString(n);
      (forall i :: 0 <= i < |s| ==> IsDigit(s[i])) && DigitsValue(s) == n
  {
    NatDigitsRoundTrip(n);
  }
}
