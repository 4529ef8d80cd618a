// Shared value types and string helpers used by every other module:
// an Option wrapper, the ASCII character classes the plug-in tests with
// std::isalnum-style checks, the lexicographic order of std::wstring,
// ::tolower, decimal rendering of integers and the std::wstring search
// primitives (find, find_first_of, find_last_of, rfind).

module Wrappers {
  datatype Option<T> = None | Some(value: T)
  {
    predicate IsSome() { Some? }

    function GetOr(default: T): T
    {
      match this
      case None => default
      case Some(v) => v
    }
  }
}

module Text {
  import opened Wrappers

  type String = seq<char>

  predicate IsDigit(c: char) { '0' <= c <= '9' }
  predicate IsUpper(c: char) { 'A' <= c <= 'Z' }
  predicate IsLower(c: char) { 'a' <= c <= 'z' }
  predicate IsAsciiLetter(c: char) { IsUpper(c) || IsLower(c) }
  predicate IsAsciiAlnum(c: char) { IsDigit(c) || IsAsciiLetter(c) }

  /** ::tolower in the "C" locale: only 'A'..'Z' change. */
  function ToLower(c: char): (r: char)
    ensures IsUpper(c) ==> IsLower(r) && r as int == c as int + 32
    ensures !IsUpper(c) ==> r == c
  {
    if IsUpper(c) then (c as int + 32) as char else c
  }

  /** The string with ::tolower applied to every character. */
  function LowerCase(s: String): (r: String)
    ensures |r| == |s|
    ensures forall i :: 0 <= i < |s| ==> r[i] == ToLower(s[i])
  {
    seq(|s|, i requires 0 <= i < |s| => ToLower(s[i]))
  }

  /** std::basic_string operator<: lexicographic on code units, a proper
    * prefix before its extensions. */
  predicate LexLess(a: String, b: String)
    decreases |a|
  {
    if |a| == 0 then |b| > 0
    else if |b| == 0 then false
    else if a[0] != b[0] then a[0] < b[0]
    else LexLess(a[1..], b[1..])
  }

  lemma {:induction false} LexLessIrreflexive(a: String)
    ensures !LexLess(a, a)
    decreases |a|
  {
    if |a| > 0 {
      LexLessIrreflexive(a[1..]);
    }
  }

  lemma {:induction false} LexLessAsymmetric(a: String, b: String)
    ensures LexLess(a, b) ==> !LexLess(b, a)
    decreases |a|
  {
    if |a| > 0 && |b| > 0 && a[0] == b[0] {
      LexLessAsymmetric(a[1..], b[1..]);
    }
  }

  lemma {:induction false} LexLessTotal(a: String, b: String)
    ensures a == b || LexLess(a, b) || LexLess(b, a)
    decreases |a|
  {
    if |a| > 0 && |b| > 0 && a[0] == b[0] {
      LexLessTotal(a[1..], b[1..]);
      if a[1..] == b[1..] {
        assert a == [a[0]] + a[1..] && b == [b[0]] + b[1..];
      }
    }
  }

  predicate IsPrefix(p: String, s: String) { |p| <= |s| && s[..|p|] == p }
  predicate IsSuffix(p: String, s: String) { |p| <= |s| && s[|s| - |p|..] == p }

  /** Does `pat` occur in `s` at position `k`? */
  predicate MatchAt(s: String, pat: String, k: nat)
  {
    k + |pat| <= |s| && s[k..k + |pat|] == pat
  }

  /** std::wstring::find(pat, from): the first occurrence at or after `from`. */
  function FindFrom(s: String, pat: String, from: nat): (r: Option<nat>)
    ensures r.Some? ==> from <= r.value && MatchAt(s, pat, r.value)
    ensures r.Some? ==> forall k :: from <= k < r.value ==> !MatchAt(s, pat, k)
    ensures r.None? ==> forall k :: from <= k ==> !MatchAt(s, pat, k)
    decreases |s| - from
  {
    if from + |pat| > |s| then None
    else if s[from..from + |pat|] == pat then Some(from)
    else FindFrom(s, pat, from + 1)
  }

  /** The first index holding a character of `cs` (find_first_of). */
  function FirstOf(s: String, cs: set<char>): (r: Option<nat>)
    ensures r.Some? ==> r.value < |s| && s[r.value] in cs
    ensures r.Some? ==> forall k :: 0 <= k < r.value ==> s[k] !in cs
    ensures r.None? ==> forall k :: 0 <= k < |s| ==> s[k] !in cs
  {
    if |s| == 0 then None
    else if s[0] in cs then Some(0)
    else match FirstOf(s[1..], cs)
      case None => None
      case Some(i) => Some(i + 1)
  }

  /** The last index holding a character of `cs` (find_last_of, rfind of a
    * single character). */
  function LastOf(s: String, cs: set<char>): (r: Option<nat>)
    ensures r.Some? ==> r.value < |s| && s[r.value] in cs
    ensures r.Some? ==> forall k :: r.value < k < |s| ==> s[k] !in cs
    ensures r.None? ==> forall k :: 0 <= k < |s| ==> s[k] !in cs
  {
    if |s| == 0 then None
    else if s[|s| - 1] in cs then Some(|s| - 1)
    else LastOf(s[..|s| - 1], cs)
  }

  function DigitChar(d: nat): (c: char)
    requires d < 10
    ensures IsDigit(c)
  {
    ('0' as int + d) as char
  }

  /** Decimal rendering of a natural number without leading zeros
    * (std::to_wstring, operator<< and %d of a non-negative value). */
  function NatToString(n: nat): (r: String)
    ensures |r| > 0
    ensures forall i :: 0 <= i < |r| ==> IsDigit(r[i])
    decreases n
  {
    if n < 10 then [DigitChar(n)] else NatToString(n / 10) + [DigitChar(n % 10)]
  }

  /** Decimal rendering of an integer, with a leading '-' when negative. */
  function IntToString(i: int): (r: String)
    ensures |r| > 0
    ensures i >= 0 ==> r == NatToString(i)
    ensures i < 0 ==> r == "-" + NatToString(-i)
  {
    if i >= 0 then NatToString(i) else "-" + NatToString(-i)
  }

  /** The decimal value of a digit string. */
  function DigitsValue(s: String): nat
    requires forall i :: 0 <= i < |s| ==> IsDigit(s[i])
  {
    if |s| == 0 then 0
    else
      assert IsDigit(s[|s| - 1]);
      DigitsValue(s[..|s| - 1]) * 10 + (s[|s| - 1] as int - '0' as int)
  }

  /** NatToString is injective: reading the digits back yields the number. */
  lemma {:induction false} NatToStringValue(n: nat)
    ensures DigitsValue(NatToString(n)) == n
    decreases n
  {
    if n >= 10 {
      NatToStringValue(n / 10);
      var s := NatToString(n);
      assert s[..|s| - 1] == NatToString(n / 10);
    }
  }

  lemma NatToStringInjective(m: nat, n: nat)
    ensures NatToString(m) == NatToString(n) ==> m == n
  {
    NatToStringValue(m);
    NatToStringValue(n);
  }

  /** std::to_wstring of a bool, which goes through int: "1" or "0". */
  function BoolToWString(b: bool): String
  {
    if b then "1" else "0"
  }

  /** Six decimal digits of k, with leading zeros. */
  function SixDigits(k: nat): (s: String)
    requires k < 1000000
    ensures |s| == 6 && forall i :: 0 <= i < 6 ==> IsDigit(s[i])
  {
    [DigitChar(k / 100000), DigitChar(k / 10000 % 10), DigitChar(k / 1000 % 10),
     DigitChar(k / 100 % 10), DigitChar(k / 10 % 10), DigitChar(k % 10)]
  }

  /** std::to_wstring of a double ("%f"): a '-' for negative values, the
    * integer part, '.', and six decimals rounded to nearest. */
  function FloatToWString(f: real): (s: String)
    ensures |s| >= 8 && s[|s| - 7] == '.'
    ensures forall i :: |s| - 6 <= i < |s| ==> IsDigit(s[i])
    ensures s[0] == '-' <==> f < 0.0
  {
    var a := if f < 0.0 then -f else f;
    var n := (a * 1000000.0 + 0.5).Floor;
    assert n >= 0;
    var digits := NatToString(n / 1000000);
    assert IsDigit(digits[0]);
    (if f < 0.0 then "-" else "") + digits + "." + SixDigits(n % 1000000)
  }
}
