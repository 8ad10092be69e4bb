/**
 * The JavaScript string primitives the application relies on: the white-space
 * class shared by the regular-expression escape `\s` and `String.prototype.trim`,
 * `trim`, `includes`, `startsWith`, the ASCII character classes used by the
 * regular expressions of the application, and the decimal rendering of numbers
 * used when a number is interpolated into a string.
 */
module JsString {

  datatype Option<+T> = None | Some(value: T)

  /** WhiteSpace or LineTerminator in ECMAScript: what `\s` matches and `trim` strips. */
  predicate IsSpace(c: char) {
    c == '\t' || c == '\n' || c == '\U{000B}' || c == '\U{000C}' || c == '\r' || c == ' '
    || c == '\U{00A0}' || c == '\U{1680}' || ('\U{2000}' <= c <= '\U{200A}')
    || c == '\U{2028}' || c == '\U{2029}' || c == '\U{202F}' || c == '\U{205F}'
    || c == '\U{3000}' || c == '\U{FEFF}'
  }

  predicate IsAsciiLetter(c: char) { ('a' <= c <= 'z') || ('A' <= c <= 'Z') }

  predicate IsDigit(c: char) { '0' <= c <= '9' }

  predicate IsAsciiAlnum(c: char) { IsAsciiLetter(c) || IsDigit(c) }

  /** The regular-expression class `\w`: `[A-Za-z0-9_]`. */
  predicate IsWordChar(c: char) { IsAsciiAlnum(c) || c == '_' }

  /** `toUpperCase` restricted to what it does on `\w` characters. */
  function UpperAscii(c: char): (u: char)
    ensures IsWordChar(c) ==> IsWordChar(u)
    ensures !('a' <= c <= 'z') ==> u == c
    ensures 'a' <= c <= 'z' ==> 'A' <= u <= 'Z' && u as int - c as int == 'A' as int - 'a' as int
  {
    if 'a' <= c <= 'z' then (c as int - 'a' as int + 'A' as int) as char else c
  }

  /** Case-insensitive character equality of the `i` flag, for ASCII patterns. */
  predicate SameLetterIgnoringCase(c: char, d: char) {
    c == d || UpperAscii(c) == UpperAscii(d)
  }

  predicate StartsWith(s: string, p: string) {
    |p| <= |s| && s[..|p|] == p
  }

  /** `p` occurs in `s` at index `k`. */
  predicate OccursAt(s: string, p: string, k: int) {
    0 <= k && k + |p| <= |s| && s[k..k + |p|] == p
  }

  /** `s.includes(p)`, scanning from the left. */
  function Includes(s: string, p: string): bool
    decreases |s|
  {
    if StartsWith(s, p) then true
    else if |s| == 0 then false
    else Includes(s[1..], p)
  }

  lemma {:induction false} IncludesIff(s: string, p: string)
    ensures Includes(s, p) <==> exists k :: OccursAt(s, p, k)
    decreases |s|
  {
    if StartsWith(s, p) {
      assert OccursAt(s, p, 0);
    } else if |s| == 0 {
      assert forall k :: OccursAt(s, p, k) ==> StartsWith(s, p);
    } else {
      IncludesIff(s[1..], p);
      forall k | OccursAt(s[1..], p, k) ensures OccursAt(s, p, k + 1) {
        assert s[k + 1..k + 1 + |p|] == s[1..][k..k + |p|];
      }
      forall k | OccursAt(s, p, k) ensures k == 0 || OccursAt(s[1..], p, k - 1) {
        if k > 0 {
          assert s[1..][k - 1..k - 1 + |p|] == s[k..k + |p|];
        }
      }
    }
  }

  /** A pattern occurring at some index is included. */
  lemma IncludesAt(s: string, p: string, k: int)
    requires OccursAt(s, p, k)
    ensures Includes(s, p)
  {
    IncludesIff(s, p);
  }

  /** A pattern occurring in `s` is found in any string that contains `s`. */
  lemma IncludesInfix(a: string, s: string, b: string, p: string)
    requires Includes(s, p)
    ensures Includes(a + s + b, p)
  {
    IncludesIff(s, p);
    var k :| OccursAt(s, p, k);
    assert (a + s + b)[|a| + k..|a| + k + |p|] == s[k..k + |p|];
    assert OccursAt(a + s + b, p, |a| + k);
    IncludesIff(a + s + b, p);
  }

  /** A pattern with a character `s` lacks is not included in `s`. */
  lemma MissingCharExcludes(s: string, p: string, c: char)
    requires c in p && c !in s
    ensures !Includes(s, p)
  {
    if Includes(s, p) {
      IncludesChars(s, p, c);
    }
  }

  /** Every character of a pattern that `s` includes occurs in `s`. */
  lemma IncludesChars(s: string, p: string, c: char)
    requires Includes(s, p) && c in p
    ensures c in s
  {
    IncludesIff(s, p);
    var k :| OccursAt(s, p, k);
    var i :| 0 <= i < |p| && p[i] == c;
    assert s[k + i] == s[k..k + |p|][i];
  }

  /** The index of the first `c` in `s`, which is `s.indexOf(c)` when it is not -1. */
  function IndexOf(s: string, c: char): (r: Option<nat>)
    ensures r.Some? ==> r.value < |s| && s[r.value] == c && c !in s[..r.value]
    ensures r.None? <==> c !in s
  {
    if |s| == 0 then None
    else if s[0] == c then Some(0)
    else match IndexOf(s[1..], c)
      case None => None
      case Some(i) => assert s[1..][..i] == s[1..i + 1]; Some(i + 1)
  }

  // ---------------------------------------------------------------- trim

  /** `s` with its leading white space removed. */
  function TrimStart(s: string): (r: string)
    ensures |r| <= |s|
  {
    if |s| > 0 && IsSpace(s[0]) then TrimStart(s[1..]) else s
  }

  /** `s` with its trailing white space removed. */
  function TrimEnd(s: string): (r: string)
    ensures |r| <= |s|
  {
    if |s| > 0 && IsSpace(s[|s| - 1]) then TrimEnd(s[..|s| - 1]) else s
  }

  /** `TrimStart` drops a white-space prefix of `s` and stops at the first other character. */
  lemma {:induction false} TrimStartSpec(s: string)
    ensures var r := TrimStart(s);
      && |r| <= |s| && r == s[|s| - |r|..]
      && (r == [] || !IsSpace(r[0]))
      && (forall i :: 0 <= i < |s| - |r| ==> IsSpace(s[i]))
  {
    if |s| > 0 && IsSpace(s[0]) {
      TrimStartSpec(s[1..]);
      var r := TrimStart(s);
      assert s[1..][|s[1..]| - |r|..] == s[|s| - |r|..];
      forall i | 0 <= i < |s| - |r| ensures IsSpace(s[i]) {
        if i > 0 {
          assert s[1..][i - 1] == s[i];
        }
      }
    }
  }

  /** `TrimEnd` drops a white-space suffix of `s` and stops at the last other character. */
  lemma {:induction false} TrimEndSpec(s: string)
    ensures var r := TrimEnd(s);
      && |r| <= |s| && r == s[..|r|]
      && (r == [] || !IsSpace(r[|r| - 1]))
      && (forall i :: |r| <= i < |s| ==> IsSpace(s[i]))
  {
    if |s| > 0 && IsSpace(s[|s| - 1]) {
      TrimEndSpec(s[..|s| - 1]);
      var r := TrimEnd(s);
      assert s[..|s| - 1][..|r|] == s[..|r|];
      forall i | |r| <= i < |s| ensures IsSpace(s[i]) {
        if i < |s| - 1 {
          assert s[..|s| - 1][i] == s[i];
        }
      }
    }
  }

  /** `s.trim()`. */
  function Trim(s: string): string {
    TrimEnd(TrimStart(s))
  }

  /** `s` is made of white space only (or is empty). */
  predicate Blank(s: string) {
    forall i :: 0 <= i < |s| ==> IsSpace(s[i])
  }

  predicate Trimmed(s: string) {
    s == [] || (!IsSpace(s[0]) && !IsSpace(s[|s| - 1]))
  }

  /** The trimmed string is the slice of `s` that starts after its leading white space. */
  lemma TrimIsSlice(s: string)
    ensures var r, k := Trim(s), |s| - |TrimStart(s)|;
      k + |r| <= |s| && r == s[k..k + |r|]
  {
    var t := TrimStart(s);
    var r := TrimEnd(t);
    var k := |s| - |t|;
    TrimStartSpec(s);
    TrimEndSpec(t);
    assert t == s[k..];
    assert r == t[..|r|];
  }

  /** What follows the trimmed slice in `s` is white space. */
  lemma TrimDropsTrailingSpace(s: string)
    ensures var r, k := Trim(s), |s| - |TrimStart(s)|;
      forall i :: k + |r| <= i < |s| ==> IsSpace(s[i])
  {
    var t := TrimStart(s);
    var r := TrimEnd(t);
    var k := |s| - |t|;
    TrimStartSpec(s);
    TrimEndSpec(t);
    assert t == s[k..];
    forall i | k + |r| <= i < |s| ensures IsSpace(s[i]) {
      assert |r| <= i - k < |t|;
      assert t[i - k] == s[i];
    }
  }

  /** The trimmed string neither starts nor ends with white space. */
  lemma TrimIsTrimmed(s: string)
    ensures Trimmed(Trim(s))
  {
    var t := TrimStart(s);
    TrimStartSpec(s);
    TrimEndSpec(t);
    if Trim(s) != [] {
      assert Trim(s)[0] == t[0];
    }
  }

  /** The trimmed string is empty exactly when `s` is all white space. */
  lemma TrimEmptyIff(s: string)
    ensures Trim(s) == [] <==> Blank(s)
  {
    var t := TrimStart(s);
    TrimStartSpec(s);
    TrimEndSpec(t);
    if Trim(s) == [] {
      assert t == [];
    } else {
      TrimIsSlice(s);
      var k := |s| - |t|;
      assert !IsSpace(s[k]) by {
        assert Trim(s)[0] == t[0] == s[k];
      }
    }
  }

  /**
   * What `trim` promises: the result is the slice of `s` that remains after the
   * white space on both sides is stripped, it neither starts nor ends with
   * white space, and it is empty exactly when `s` is all white space.
   */
  lemma TrimSpec(s: string)
    ensures var r, k := Trim(s), |s| - |TrimStart(s)|;
      && Trimmed(r)
      && k + |r| <= |s| && r == s[k..k + |r|]
      && (forall i :: 0 <= i < k ==> IsSpace(s[i]))
      && (forall i :: k + |r| <= i < |s| ==> IsSpace(s[i]))
      && (r == [] <==> Blank(s))
  {
    TrimStartSpec(s);
    TrimIsSlice(s);
    TrimDropsTrailingSpace(s);
    TrimEmptyIff(s);
    TrimIsTrimmed(s);
  }

  /** Trimming a string that has no surrounding white space changes nothing. */
  lemma TrimOfTrimmed(s: string)
    requires Trimmed(s)
    ensures Trim(s) == s
  {
  }

  lemma TrimIdempotent(s: string)
    ensures Trim(Trim(s)) == Trim(s)
  {
    TrimSpec(s);
    TrimOfTrimmed(Trim(s));
  }

  /** The part of `s` before the first `c`, which is `s.split(c)[0]`. */
  function BeforeFirst(s: string, c: char): (r: string)
    ensures c !in r
    ensures |r| <= |s| && r == s[..|r|]
    ensures |r| < |s| ==> s[|r|] == c
  {
    if |s| == 0 then [] else if s[0] == c then [] else [s[0]] + BeforeFirst(s[1..], c)
  }

  // ---------------------------------------------------------------- numbers

  function DigitChar(d: nat): (c: char)
    requires d < 10
    ensures IsDigit(c)
  {
    ('0' as int + d) as char
  }

  /** `String(n)` for a natural number: its decimal digits, no leading zeros. */
  function Decimal(n: nat): (r: string)
    ensures |r| > 0 && forall i :: 0 <= i < |r| ==> IsDigit(r[i])
    ensures |r| > 1 ==> r[0] != '0'
    decreases n
  {
    if n < 10 then [DigitChar(n)] else Decimal(n / 10) + [DigitChar(n % 10)]
  }

  function DigitValue(c: char): nat
    requires IsDigit(c)
  {
    c as int - '0' as int
  }

  /** The number a string of decimal digits denotes. */
  function DigitsValue(s: string): nat
    requires forall i :: 0 <= i < |s| ==> IsDigit(s[i])
  {
    if |s| == 0 then 0 else 10 * DigitsValue(s[..|s| - 1]) + DigitValue(s[|s| - 1])
  }

  /** Reading back the decimal rendering of `n` gives `n`. */
  lemma {:induction false} DecimalRoundTrip(n: nat)
    ensures DigitsValue(Decimal(n)) == n
    decreases n
  {
    if n >= 10 {
      DecimalRoundTrip(n / 10);
      var r := Decimal(n);
      assert r[..|r| - 1] == Decimal(n / 10);
    }
  }

  /** Distinct numbers have distinct decimal renderings. */
  lemma DecimalInjective()
    ensures forall i: nat, j: nat :: Decimal(i) == Decimal(j) ==> i == j
  {
    forall i: nat, j: nat | Decimal(i) == Decimal(j) ensures i == j {
      DecimalRoundTrip(i);
      DecimalRoundTrip(j);
    }
  }
}
