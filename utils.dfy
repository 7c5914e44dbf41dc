/** The string and array helpers of the main process's utility file. */
module Utils {
  import opened Strings

  function DigitChar(d: int): char
    requires 0 <= d < 10
  {
    ('0' as int + d) as char
  }

  /** The decimal digits of `n`, as `String(n)` writes them. */
  function NatToString(n: nat): (r: string)
    ensures |r| >= 1
    ensures forall i :: 0 <= i < |r| ==> IsDigit(r[i])
    decreases n
  {
    if n < 10 then [DigitChar(n)] else NatToString(n / 10) + [DigitChar(n % 10)]
  }

  /** The value of a string of decimal digits. */
  function ParseNat(s: string): nat
    requires forall i :: 0 <= i < |s| ==> IsDigit(s[i])
    decreases |s|
  {
    if |s| == 0 then 0
    else
      assert IsDigit(s[|s| - 1]);
      ParseNat(s[..|s| - 1]) * 10 + (s[|s| - 1] as int - '0' as int)
  }

  /** Reading back the digits written for `n` gives `n`. */
  lemma {:induction false} ParseNatToString(n: nat)
    ensures ParseNat(NatToString(n)) == n
    decreases n
  {
    if n >= 10 {
      var s := NatToString(n);
      assert s[..|s| - 1] == NatToString(n / 10);
      ParseNatToString(n / 10);
    }
  }

  /** `String(i)` for an integer. */
  function IntToString(i: int): string {
    if i < 0 then "-" + NatToString(-i) else NatToString(i)
  }

  /** `Math.floor(d / 1000)`: division rounding down. */
  function FloorDiv1000(d: int): int {
    d / 1000
  }

  /** `d % 1000` in JavaScript: the remainder takes the sign of `d`. */
  function JsRem1000(d: int): (r: int)
    ensures -1000 < r < 1000
    ensures d >= 0 ==> r >= 0
    ensures d <= 0 ==> r <= 0
  {
    if d >= 0 then d % 1000 else -((-d) % 1000)
  }

  /** `formatDurationToS`: whole seconds and the milliseconds left over. */
  function FormatDurationToS(d: int): (r: string)
    ensures |r| >= 5 && r[|r| - 2..] == "ms"
    ensures d >= 0 ==> r == NatToString(d / 1000) + "s " + NatToString(d % 1000) + "ms"
  {
    IntToString(FloorDiv1000(d)) + "s " + IntToString(JsRem1000(d)) + "ms"
  }

  /** For a duration that is not negative the two parts split it exactly, with 0 to 999 ms. */
  lemma DurationPartsExact(d: int)
    requires d >= 0
    ensures FloorDiv1000(d) * 1000 + JsRem1000(d) == d
    ensures 0 <= JsRem1000(d) <= 999
    ensures FormatDurationToS(d) == NatToString(d / 1000) + "s " + NatToString(d % 1000) + "ms"
  {
  }

  /**
   * A negative duration that is not a whole number of seconds is written with
   * rounded-down seconds but truncated milliseconds, so the parts undershoot.
   */
  lemma DurationPartsNegative(d: int)
    requires d < 0 && d % 1000 != 0
    ensures FloorDiv1000(d) * 1000 + JsRem1000(d) < d
  {
  }

  /** `capitalizeFirstLetter` */
  function CapitalizeFirstLetter(word: string): (r: string)
    ensures |r| == |word|
    ensures word == [] ==> r == []
    ensures |r| > 0 ==> !IsLowerAscii(r[0])
    ensures forall i :: 1 <= i < |r| ==> !IsUpperAscii(r[i])
  {
    if |word| == 0 then word else Upper(word[..1]) + Lower(word[1..])
  }

  /** Only the case of letters changes: the word and its capitalisation agree once lower-cased. */
  lemma CapitalizeKeepsLetters(word: string)
    ensures Lower(CapitalizeFirstLetter(word)) == Lower(word)
  {
    var r := CapitalizeFirstLetter(word);
    forall i | 0 <= i < |word|
      ensures LowerChar(r[i]) == LowerChar(word[i])
    {
      if i > 0 {
        assert r[i] == Lower(word[1..])[i - 1];
      }
    }
  }

  lemma LowerIdempotent(s: string)
    ensures Lower(Lower(s)) == Lower(s)
  {
  }

  /** Capitalising a capitalised word changes nothing. */
  lemma CapitalizeIdempotent(word: string)
    ensures CapitalizeFirstLetter(CapitalizeFirstLetter(word)) == CapitalizeFirstLetter(word)
  {
    var r := CapitalizeFirstLetter(word);
    if |word| > 0 {
      assert r[1..] == Lower(word[1..]);
      LowerIdempotent(word[1..]);
      assert Upper(r[..1]) == r[..1];
    }
  }

  /** `arraysAreEqual`: same length, then element by element with early exit. */
  method ArraysAreEqual<T(==)>(a: seq<T>, b: seq<T>) returns (equal: bool)
    ensures equal <==> a == b
  {
    if |a| != |b| {
      return false;
    }
    for i := 0 to |a|
      invariant a[..i] == b[..i]
    {
      if a[i] != b[i] {
        return false;
      }
    }
    assert a == a[..|a|] && b == b[..|b|];
    return true;
  }

  /** The characters `sanitizePathString` keeps: `[a-zA-Z0-9/-]`. */
  predicate IsPathChar(c: char) {
    IsLowerAscii(c) || IsUpperAscii(c) || IsDigit(c) || c == '/' || c == '-'
  }

  /** `sanitizePathString`: every other character dropped. */
  function SanitizePathString(s: string): (r: string)
    ensures forall c :: c in r <==> c in s && IsPathChar(c)
    ensures |r| <= |s|
  {
    Filter(s, IsPathChar)
  }

  /** Sanitising keeps the order of the kept characters. */
  lemma SanitizeConcat(a: string, b: string)
    ensures SanitizePathString(a + b) == SanitizePathString(a) + SanitizePathString(b)
  {
    FilterConcat(a, b, IsPathChar);
  }

  /** A string made only of kept characters is left as it is. */
  lemma SanitizeClean(s: string)
    requires forall c :: c in s ==> IsPathChar(c)
    ensures SanitizePathString(s) == s
  {
    FilterAll(s, IsPathChar);
  }

  /** Sanitising twice is sanitising once. */
  lemma SanitizeIdempotent(s: string)
    ensures SanitizePathString(SanitizePathString(s)) == SanitizePathString(s)
  {
    SanitizeClean(SanitizePathString(s));
  }
}
