// String helpers of the plug-in (namespace prtu and the inline helpers of
// utils/Utilities.h): hexadecimal colour text, the CGAC-to-CityEngine
// version rewrite of error messages, Maya-safe names with duplicate
// suffixes, style and import prefixes of fully qualified rule names, and
// the small search loops over rule-file keys and rules.

module Utilities {
  import opened Wrappers
  import opened Text
  import RuleInfo

  // ---------------------------------------------------------------------
  // Hexadecimal digits and colours
  // ---------------------------------------------------------------------

  const HexTab: String := "0123456789ABCDEF"

  /** The value of a hexadecimal digit of either case; any other character reads as 0. */
  function FromHex(c: char): (r: int)
    ensures 0 <= r < 16
    ensures IsDigit(c) ==> r == c as int - '0' as int
    ensures 'a' <= c <= 'f' ==> r == c as int - 'a' as int + 10
    ensures 'A' <= c <= 'F' ==> r == c as int - 'A' as int + 10
    ensures !IsDigit(c) && !('a' <= c <= 'f') && !('A' <= c <= 'F') ==> r == 0
  {
    match c
    case '0' => 0 case '1' => 1 case '2' => 2 case '3' => 3 case '4' => 4
    case '5' => 5 case '6' => 6 case '7' => 7 case '8' => 8 case '9' => 9
    case 'a' => 0xa case 'A' => 0xa
    case 'b' => 0xb case 'B' => 0xb
    case 'c' => 0xc case 'C' => 0xc
    case 'd' => 0xd case 'D' => 0xd
    case 'e' => 0xe case 'E' => 0xe
    case 'f' => 0xf case 'F' => 0xf
    case _ => 0
  }

  /** The upper-case digit of the low nibble of `i` (`i & 0xF`, which on a
    * two's-complement int is the Euclidean remainder by 16). */
  function ToHex(i: int): (c: char)
    ensures IsDigit(c) || 'A' <= c <= 'F'
    ensures FromHex(c) == i % 16
  {
    HexDigitsRead(i % 16);
    HexTab[i % 16]
  }

  lemma HexDigitsRead(k: int)
    requires 0 <= k < 16
    ensures IsDigit(HexTab[k]) || 'A' <= HexTab[k] <= 'F'
    ensures FromHex(HexTab[k]) == k
  {
    if k < 10 {
      assert HexTab[k] == ('0' as int + k) as char;
    } else {
      assert HexTab[k] == ('A' as int + k - 10) as char;
    }
  }

  /** The three 8-bit channels that parseColor reads, before its division by
    * 255: zero unless the text has at least seven characters and starts
    * with '#'; then two hexadecimal digits per channel from characters 1..6. */
  function ParseColor(s: String): (rgb: (int, int, int))
    ensures 0 <= rgb.0 < 256 && 0 <= rgb.1 < 256 && 0 <= rgb.2 < 256
    ensures !(|s| >= 7 && s[0] == '#') ==> rgb == (0, 0, 0)
  {
    if |s| >= 7 && s[0] == '#' then
      (FromHex(s[1]) * 16 + FromHex(s[2]),
       FromHex(s[3]) * 16 + FromHex(s[4]),
       FromHex(s[5]) * 16 + FromHex(s[6]))
    else (0, 0, 0)
  }

  /** Only the first seven characters of a colour text matter. */
  lemma ParseColorReadsSevenChars(s: String, t: String)
    requires |s| >= 7 && |t| >= 7 && s[..7] == t[..7]
    ensures ParseColor(s) == ParseColor(t)
  {
    assert forall k :: 0 <= k < 7 ==> s[k] == s[..7][k] && t[k] == t[..7][k];
  }

  /** getColorString on the three truncated channel values `r`, `g`, `b`
    * (the int casts of the scaled floats): per channel, first the digit of
    * `v >> 4`, which is floor division by 16, then the digit of `v`. */
  function ColorString(r: int, g: int, b: int): (s: String)
    ensures |s| == 7 && s[0] == '#'
    ensures forall k :: 1 <= k < 7 ==> IsDigit(s[k]) || 'A' <= s[k] <= 'F'
  {
    ['#', ToHex(r / 16), ToHex(r), ToHex(g / 16), ToHex(g), ToHex(b / 16), ToHex(b)]
  }

  /** The two digits of a channel read back as the channel modulo 256. */
  lemma ChannelRead(v: int)
    ensures FromHex(ToHex(v / 16)) * 16 + FromHex(ToHex(v)) == v % 256
  {
    NibblesCompose(v);
  }

  /** Reading a written colour text yields every channel modulo 256. */
  lemma ColorStringParses(r: int, g: int, b: int)
    ensures ParseColor(ColorString(r, g, b)) == (r % 256, g % 256, b % 256)
  {
    ChannelRead(r);
    ChannelRead(g);
    ChannelRead(b);
  }

  /** The high nibble of `v >> 4` followed by the low nibble of `v` spell
    * `v` modulo 256. */
  lemma NibblesCompose(v: int)
    ensures ((v / 16) % 16) * 16 + v % 16 == v % 256
  {
    var q, r := v / 256, v % 256;
    assert v == 256 * q + r;
    assert v / 16 == 16 * q + r / 16;
    assert (v / 16) % 16 == r / 16;
    assert v % 16 == r % 16;
  }

  /** A channel in 0..255 survives writing and reading the colour text. */
  lemma ColorRoundTrip(r: int, g: int, b: int)
    requires 0 <= r < 256 && 0 <= g < 256 && 0 <= b < 256
    ensures ParseColor(ColorString(r, g, b)) == (r, g, b)
  {
    ColorStringParses(r, g, b);
    assert r % 256 == r && g % 256 == g && b % 256 == b;
  }

  // ---------------------------------------------------------------------
  // CGAC version to CityEngine version
  // ---------------------------------------------------------------------

  const TooNewCEVersion: String := "newer than 2021.1"
  const CgacVersionString: String := "CGAC version "
  const CEVersionString: String := "CityEngine version "

  const CgacToCEVersion: map<String, String> := map[
    "1.17" := "2021.1", "1.16" := "2021.0", "1.15" := "2020.1",
    "1.14" := "2020.0", "1.13" := "2019.1", "1.12" := "2019.0",
    "1.11" := "2018.1", "1.10" := "2018.0", "1.9" := "2017.1",
    "1.8" := "2017.0", "1.7" := "2016.1", "1.6" := "2016.0",
    "1.5" := "2015.0 - 2015.2", "1.4" := "2014.1", "1.3" := "2014.1",
    "1.2" := "2014.0", "1.1" := "2013.1", "1.0" := "2013.0"]

  /** The CityEngine release of a CGAC version, or the "too new" text. */
  function CEVersion(cgac: String): (ce: String)
    ensures cgac in CgacToCEVersion ==> ce == CgacToCEVersion[cgac]
    ensures cgac !in CgacToCEVersion ==> ce == TooNewCEVersion
  {
    if cgac in CgacToCEVersion then CgacToCEVersion[cgac] else TooNewCEVersion
  }

  /** The position right after the first `prefix`, and the first `suffix`
    * at or after it: the version text lies between the two. */
  function VersionSpan(s: String, prefix: String, suffix: String): (span: Option<(nat, nat)>)
    ensures span.Some? ==> span.value.0 <= span.value.1 <= |s|
  {
    match FindFrom(s, prefix, 0)
    case None => None
    case Some(p) =>
      match FindFrom(s, suffix, p + |prefix|)
      case None => None
      case Some(e) => Some((p + |prefix|, e))
  }

  /** replaceCGACVersionBetween: the text between the first `prefix` and the
    * next `suffix` is replaced by its CityEngine version; without either
    * delimiter the string is left alone. */
  function ReplaceCGACVersionBetween(s: String, prefix: String, suffix: String): (r: String)
    ensures FindFrom(s, prefix, 0).None? ==> r == s
    ensures VersionSpan(s, prefix, suffix).None? ==> r == s
    ensures VersionSpan(s, prefix, suffix).Some? ==>
      var start, end := VersionSpan(s, prefix, suffix).value.0, VersionSpan(s, prefix, suffix).value.1;
      var version := CEVersion(s[start..end]);
      |r| == start + |version| + (|s| - end) &&
      r[..start] == s[..start] && r[start..start + |version|] == version &&
      r[start + |version|..] == s[end..]
  {
    match VersionSpan(s, prefix, suffix)
    case None => s
    case Some(span) => s[..span.0] + CEVersion(s[span.0..span.1]) + s[span.1..]
  }

  /** replaceAllSubstrings: every occurrence of `from`, scanning left to
    * right without overlaps, becomes `to`; an empty `from` changes nothing. */
  function ReplaceAllSubstrings(s: String, from: String, to: String): (r: String)
    ensures |from| == 0 ==> r == s
    decreases |s|
  {
    if |from| == 0 || |s| < |from| then s
    else if s[..|from|] == from then to + ReplaceAllSubstrings(s[|from|..], from, to)
    else [s[0]] + ReplaceAllSubstrings(s[1..], from, to)
  }

  /** A text without `from` is not touched by ReplaceAllSubstrings. */
  lemma {:induction false} ReplaceAllSubstringsAbsent(s: String, from: String, to: String)
    requires FindFrom(s, from, 0).None?
    ensures ReplaceAllSubstrings(s, from, to) == s
    decreases |s|
  {
    if |from| > 0 && |s| >= |from| {
      assert !MatchAt(s, from, 0);
      forall k | 0 <= k ensures !MatchAt(s[1..], from, k) {
        assert !MatchAt(s, from, k + 1);
        if k + |from| <= |s| - 1 {
          assert s[1..][k..k + |from|] == s[k + 1..k + 1 + |from|];
        }
      }
      ReplaceAllSubstringsAbsent(s[1..], from, to);
    }
  }

  /** ReplaceAllSubstringsAbsent, for any text. */
  lemma ReplaceAllSubstringsUntouched(s: String, from: String, to: String)
    ensures FindFrom(s, from, 0).None? ==> ReplaceAllSubstrings(s, from, to) == s
  {
    if FindFrom(s, from, 0).None? {
      ReplaceAllSubstringsAbsent(s, from, to);
    }
  }

  /** After the rewrite, `from` no longer occurs, provided `to` cannot
    * recreate it: here `to` itself holds no `from` and `from` is a single
    * character. */
  lemma {:induction false} ReplaceAllSubstringsRemovesChar(s: String, c: char, to: String)
    requires c !in to
    ensures c !in ReplaceAllSubstrings(s, [c], to)
    decreases |s|
  {
    if |s| >= 1 {
      ReplaceAllSubstringsRemovesChar(s[1..], c, to);
    }
  }

  /** replaceCGACWithCEVersion: "CGAC version " becomes "CityEngine version ",
    * then the version after it (up to a blank) and the one in parentheses
    * are rewritten to CityEngine releases. A message that mentions neither
    * version phrase nor a parenthesis is returned unchanged. */
  function ReplaceCGACWithCEVersion(s: String): (r: String)
    ensures (FindFrom(s, CgacVersionString, 0).None? && FindFrom(s, CEVersionString, 0).None? &&
             FindFrom(s, "(", 0).None?) ==> r == s
  {
    ReplaceAllSubstringsUntouched(s, CgacVersionString, CEVersionString);
    var renamed := ReplaceAllSubstrings(s, CgacVersionString, CEVersionString);
    var first := ReplaceCGACVersionBetween(renamed, CEVersionString, " ");
    ReplaceCGACVersionBetween(first, "(", ")")
  }

  // ---------------------------------------------------------------------
  // Maya-safe names
  // ---------------------------------------------------------------------

  const MayaSeparator: String := "_"

  /** The characters Maya accepts in a name. */
  const MayaCompatibleChars: String := LowerLetters + UpperLetters + DigitChars + "_"
  const LowerLetters: String := "abcdefghijklmnopqrstuvwxyz"
  const UpperLetters: String := "ABCDEFGHIJKLMNOPQRSTUVWXYZ"
  const DigitChars: String := "0123456789"

  lemma DigitCharAt(i: int)
    requires 0 <= i < 10
    ensures DigitChars[i] == ('0' as int + i) as char
  {
  }

  lemma LetterAt(i: int)
    requires 0 <= i < 26
    ensures LowerLetters[i] == ('a' as int + i) as char
    ensures UpperLetters[i] == ('A' as int + i) as char
  {
  }

  lemma InLetters(c: char)
    ensures c in LowerLetters <==> IsLower(c)
    ensures c in UpperLetters <==> IsUpper(c)
  {
    if IsLower(c) {
      LetterAt(c as int - 'a' as int);
    } else if IsUpper(c) {
      LetterAt(c as int - 'A' as int);
    }
    forall i | 0 <= i < 26 ensures IsLower(LowerLetters[i]) && IsUpper(UpperLetters[i]) {
      LetterAt(i);
    }
  }

  lemma InDigitChars(c: char)
    ensures c in DigitChars <==> IsDigit(c)
  {
    if IsDigit(c) {
      DigitCharAt(c as int - '0' as int);
    } else {
      forall i | 0 <= i < 10 ensures DigitChars[i] != c { DigitCharAt(i); }
    }
  }

  lemma InMayaCompatibleChars(c: char)
    ensures c in MayaCompatibleChars <==> IsAsciiAlnum(c) || c == '_'
  {
    InLetters(c);
    InDigitChars(c);
  }

  /** The first position at or after `from` whose character is not allowed
    * (std::wstring::find_first_not_of). */
  function FirstNotOf(s: String, allowed: String, from: nat): (r: Option<nat>)
    ensures r.Some? ==> from <= r.value < |s| && s[r.value] !in allowed
    ensures r.Some? ==> forall k :: from <= k < r.value ==> s[k] in allowed
    ensures r.None? ==> forall k :: from <= k < |s| ==> s[k] in allowed
    decreases |s| - from
  {
    if from >= |s| then None
    else if s[from] !in allowed then Some(from)
    else FirstNotOf(s, allowed, from + 1)
  }

  /** What replace_all_not_of leaves behind: allowed characters stay, every
    * other character becomes '_'. */
  function ReplacedNotOf(s: String, allowed: String): (r: String)
    ensures |r| == |s|
    ensures forall i :: 0 <= i < |s| && s[i] in allowed ==> r[i] == s[i]
    ensures forall i :: 0 <= i < |s| && s[i] !in allowed ==> r[i] == '_'
  {
    seq(|s|, i requires 0 <= i < |s| => if s[i] in allowed then s[i] else '_')
  }

  /** replace_all_not_of: repeatedly find the next disallowed character and
    * overwrite it with '_'. */
  method ReplaceAllNotOf(s0: String, allowed: String) returns (s: String)
    ensures s == ReplacedNotOf(s0, allowed)
  {
    s := s0;
    var pos := 0;
    while pos < |s|
      invariant |s| == |s0| && pos <= |s|
      invariant forall k :: 0 <= k < pos ==> s[k] == ReplacedNotOf(s0, allowed)[k]
      invariant forall k :: pos <= k < |s| ==> s[k] == s0[k]
      decreases |s| - pos
    {
      var next := FirstNotOf(s, allowed, pos);
      if next.None? {
        break;
      }
      s := s[next.value := '_'];
      pos := next.value + 1;
    }
  }

  /** Replacing with an allowed '_' twice is the same as once. */
  lemma ReplacedNotOfIdempotent(s: String, allowed: String)
    requires '_' in allowed
    ensures ReplacedNotOf(ReplacedNotOf(s, allowed), allowed) == ReplacedNotOf(s, allowed)
  {
  }

  /** cleanNameForMaya: disallowed characters become '_', and a name that
    * would start with a digit gets a leading '_'. */
  function CleanName(name: String): (r: String)
  {
    GuardLeadingDigit(ReplacedNotOf(name, MayaCompatibleChars))
  }

  /** A leading '_' for a name that starts with a digit. */
  function GuardLeadingDigit(replaced: String): (r: String)
  {
    if |replaced| > 0 && replaced[0] in DigitChars then MayaSeparator + replaced else replaced
  }

  method CleanNameForMaya(name: String) returns (r: String)
    ensures r == CleanName(name)
  {
    r := ReplaceAllNotOf(name, MayaCompatibleChars);
    if |r| > 0 && r[0] in DigitChars {
      r := MayaSeparator + r;
    }
  }

  /** A predicate for names Maya accepts as they are. */
  predicate IsMayaName(s: String)
  {
    (forall i :: 0 <= i < |s| ==> IsAsciiAlnum(s[i]) || s[i] == '_') &&
    (|s| > 0 ==> !IsDigit(s[0]))
  }

  /** The cleaned name only uses letters, digits and '_', never starts with
    * a digit, and is the input, possibly with one leading '_'. */
  lemma CleanNameIsMayaName(name: String)
    ensures IsMayaName(CleanName(name))
    ensures |CleanName(name)| == |name| || |CleanName(name)| == |name| + 1
  {
    var r := CleanName(name);
    var replaced := ReplacedNotOf(name, MayaCompatibleChars);
    InMayaCompatibleChars('_');
    forall i | 0 <= i < |replaced| ensures IsAsciiAlnum(replaced[i]) || replaced[i] == '_' {
      InMayaCompatibleChars(name[i]);
    }
    if |replaced| > 0 {
      InDigitChars(replaced[0]);
    }
  }

  /** A name Maya already accepts is left alone. */
  lemma CleanNameKeepsMayaName(name: String)
    requires IsMayaName(name)
    ensures CleanName(name) == name
  {
    var replaced := ReplacedNotOf(name, MayaCompatibleChars);
    forall i | 0 <= i < |name| ensures replaced[i] == name[i] {
      InMayaCompatibleChars(name[i]);
    }
    assert replaced == name;
    if |name| > 0 {
      InDigitChars(name[0]);
    }
  }

  /** Cleaning is idempotent. */
  lemma CleanNameIdempotent(name: String)
    ensures CleanName(CleanName(name)) == CleanName(name)
  {
    CleanNameIsMayaName(name);
    CleanNameKeepsMayaName(CleanName(name));
  }

  // ---------------------------------------------------------------------
  // Duplicate suffixes
  // ---------------------------------------------------------------------

  /** The counter a name has after one more getDuplicateCountSuffix call:
    * 0 on its first call, one more on every later call. */
  function BumpCount(counts: map<String, int>, name: String): (next: map<String, int>)
    ensures name in next && next.Keys == counts.Keys + {name}
    ensures name !in counts ==> next[name] == 0
    ensures name in counts ==> next[name] == counts[name] + 1
    ensures forall n :: n in counts && n != name ==> next[n] == counts[n]
  {
    if name in counts then counts[name := counts[name] + 1] else counts[name := 0]
  }

  /** getDuplicateCountSuffix: bump the name's counter and render "_<count>". */
  method GetDuplicateCountSuffix(name: String, counts: map<String, int>)
    returns (suffix: String, next: map<String, int>)
    ensures next == BumpCount(counts, name)
    ensures suffix == MayaSeparator + IntToString(next[name])
  {
    if name in counts {
      next := counts[name := counts[name] + 1];
    } else {
      next := counts[name := 0];
    }
    suffix := MayaSeparator + IntToString(next[name]);
  }

  /** The number of times `n` occurs in `names`. */
  function Occurrences(names: seq<String>, n: String): (k: nat)
    ensures k <= |names|
  {
    if |names| == 0 then 0
    else Occurrences(names[..|names| - 1], n) + (if names[|names| - 1] == n then 1 else 0)
  }

  /** The counters after one getDuplicateCountSuffix call per name, from an empty map. */
  function CountsAfter(names: seq<String>): (counts: map<String, int>)
  {
    if |names| == 0 then map[] else BumpCount(CountsAfter(names[..|names| - 1]), names[|names| - 1])
  }

  /** After a sequence of calls, a name's counter is its number of calls
    * minus one, and names never passed have no counter. */
  lemma {:induction false} CountsAfterOccurrences(names: seq<String>, n: String)
    ensures n in CountsAfter(names) <==> Occurrences(names, n) > 0
    ensures n in CountsAfter(names) ==> CountsAfter(names)[n] == Occurrences(names, n) - 1
  {
    if |names| > 0 {
      CountsAfterOccurrences(names[..|names| - 1], n);
    }
  }

  /** The suffix the i-th call returns. */
  function SuffixAt(names: seq<String>, i: nat): (suffix: String)
    requires i < |names|
  {
    MayaSeparator + IntToString(CountsAfter(names[..i + 1])[names[i]])
  }

  /** The i-th call for a name yields "_<number of earlier calls for it>". */
  lemma SuffixCountsEarlierCalls(names: seq<String>, i: nat)
    requires i < |names|
    ensures SuffixAt(names, i) == MayaSeparator + NatToString(Occurrences(names[..i], names[i]))
  {
    CountsAfterOccurrences(names[..i + 1], names[i]);
    assert names[..i + 1][..i] == names[..i];
  }

  lemma {:induction false} OccurrencesGrow(names: seq<String>, n: String, i: nat, j: nat)
    requires i < j <= |names| && names[i] == n
    ensures Occurrences(names[..i], n) < Occurrences(names[..j], n)
    decreases j
  {
    assert names[..j][..j - 1] == names[..j - 1];
    if j - 1 > i {
      OccurrencesGrow(names, n, i, j - 1);
    } else {
      assert names[..j - 1] == names[..i];
    }
  }

  /** Two calls for the same name never return the same suffix, so names
    * made unique this way are unique. */
  lemma DistinctSuffixes(names: seq<String>, i: nat, j: nat)
    requires i < j < |names| && names[i] == names[j]
    ensures SuffixAt(names, i) != SuffixAt(names, j)
  {
    SuffixCountsEarlierCalls(names, i);
    SuffixCountsEarlierCalls(names, j);
    OccurrencesGrow(names, names[i], i, j);
    var a, b := Occurrences(names[..i], names[i]), Occurrences(names[..j], names[j]);
    NatToStringInjective(a, b);
    assert (MayaSeparator + NatToString(a))[1..] == NatToString(a);
    assert (MayaSeparator + NatToString(b))[1..] == NatToString(b);
  }

  // ---------------------------------------------------------------------
  // Style and import prefixes of fully qualified names
  // ---------------------------------------------------------------------

  const StyleDelimiter: char := '$'
  const ImportDelimiter: char := '.'

  /** getStyle: the text before the first '$', empty when there is none or
    * when '$' comes first. */
  function GetStyle(fqRuleName: String): (style: String)
    ensures StyleDelimiter !in style
    ensures StyleDelimiter !in fqRuleName ==> style == []
    ensures IsPrefix(style, fqRuleName)
  {
    match FirstOf(fqRuleName, {StyleDelimiter})
    case None => []
    case Some(p) => if p == 0 then [] else fqRuleName[..p]
  }

  /** removePrefix: the text after the first `delim`; the whole text when
    * there is none. */
  function RemovePrefix(fqRuleName: String, delim: char): (r: String)
    ensures delim !in fqRuleName ==> r == fqRuleName
    ensures delim in fqRuleName ==> IsSuffix(r, fqRuleName) && |r| < |fqRuleName|
  {
    match FirstOf(fqRuleName, {delim})
    case None => fqRuleName
    case Some(p) =>
      if p == |fqRuleName| - 1 then []
      else if |fqRuleName| <= 1 then []
      else fqRuleName[p + 1..]
  }

  /** With a delimiter present the name splits into the part before its
    * first occurrence, the delimiter, and what removePrefix keeps. */
  lemma RemovePrefixSplit(fqRuleName: String, delim: char)
    requires delim in fqRuleName
    ensures exists p :: 0 <= p < |fqRuleName| && delim !in fqRuleName[..p] &&
                        fqRuleName == fqRuleName[..p] + [delim] + RemovePrefix(fqRuleName, delim)
  {
    var p := FirstOf(fqRuleName, {delim}).value;
    assert fqRuleName == fqRuleName[..p] + [delim] + fqRuleName[p + 1..];
  }

  /** removeStyle: the name after the style's '$'; a name without a style
    * is kept whole. */
  function RemoveStyle(fqRuleName: String): (r: String)
    ensures StyleDelimiter !in fqRuleName ==> r == fqRuleName
    ensures StyleDelimiter in fqRuleName ==> IsSuffix(r, fqRuleName) && |r| < |fqRuleName|
  {
    RemovePrefix(fqRuleName, StyleDelimiter)
  }

  /** removeImport: the name after the import's '.'; a name without an
    * import prefix is kept whole. */
  function RemoveImport(fqRuleName: String): (r: String)
    ensures ImportDelimiter !in fqRuleName ==> r == fqRuleName
    ensures ImportDelimiter in fqRuleName ==> IsSuffix(r, fqRuleName) && |r| < |fqRuleName|
  {
    RemovePrefix(fqRuleName, ImportDelimiter)
  }

  /** A styled name is its style, '$', and the name without the style. */
  lemma StyleSplit(fqRuleName: String)
    requires StyleDelimiter in fqRuleName
    ensures fqRuleName == GetStyle(fqRuleName) + [StyleDelimiter] + RemoveStyle(fqRuleName)
  {
    var p := FirstOf(fqRuleName, {StyleDelimiter}).value;
    assert fqRuleName == fqRuleName[..p] + [StyleDelimiter] + fqRuleName[p + 1..];
  }

  // ---------------------------------------------------------------------
  // Searches
  // ---------------------------------------------------------------------

  /** startsWithAnyOf: `s.find(v) == 0` for some element, i.e. some element
    * is a prefix of `s` (an empty element always is). */
  method StartsWithAnyOf(s: String, sv: seq<String>) returns (b: bool)
    ensures b <==> exists i :: 0 <= i < |sv| && IsPrefix(sv[i], s)
  {
    for i := 0 to |sv|
      invariant forall j :: 0 <= j < i ==> !IsPrefix(sv[j], s)
    {
      if FindFrom(s, sv[i], 0) == Some(0) {
        return true;
      }
      assert !MatchAt(s, sv[i], 0);
    }
    return false;
  }

  const CgbExtension: String := ".cgb"

  predicate EndsWithCgb(key: String) { IsSuffix(CgbExtension, key) }

  /** The index of the first key that ends in ".cgb". */
  function FirstCgbKey(keys: seq<String>): (r: Option<nat>)
    ensures r.Some? ==> r.value < |keys| && EndsWithCgb(keys[r.value])
    ensures r.Some? ==> forall j :: 0 <= j < r.value ==> !EndsWithCgb(keys[j])
    ensures r.None? ==> forall j :: 0 <= j < |keys| ==> !EndsWithCgb(keys[j])
  {
    if |keys| == 0 then None
    else if EndsWithCgb(keys[0]) then Some(0)
    else match FirstCgbKey(keys[1..])
      case None => None
      case Some(i) => Some(i + 1)
  }

  /** A key that the backward comparison with ".cgb" would read in front
    * of: one that matches the end of ".cgb" all the way to its own start
    * without being as long, the empty key included. */
  predicate ReadsBeforeStart(key: String)
  {
    |key| < |CgbExtension| && IsSuffix(key, CgbExtension)
  }

  /** std::equal over the reversed ".cgb" and the reversed key: characters
    * are compared from the back and the comparison stops at the first
    * mismatch. */
  method EqualsCgbFromBack(key: String) returns (b: bool)
    requires !ReadsBeforeStart(key)
    ensures b <==> EndsWithCgb(key)
  {
    var n := 0;
    while n < |CgbExtension|
      invariant n <= |CgbExtension| && n <= |key|
      invariant MatchesFromBack(key, n)
    {
      if n == |key| {
        ShortMatchFromBack(key);
        assert false;
      }
      if Back(key, n) != Back(CgbExtension, n) {
        CgbFromBack(key, n);
        return false;
      }
      n := n + 1;
    }
    FullMatchFromBack(key);
    return true;
  }

  /** The character k places from the end. */
  function Back(s: String, k: nat): char
    requires k < |s|
  {
    s[|s| - 1 - k]
  }

  /** The last n characters of the key agree with those of ".cgb". */
  predicate MatchesFromBack(key: String, n: nat)
  {
    n <= |key| && n <= |CgbExtension| &&
    forall k :: 0 <= k < n ==> Back(key, k) == Back(CgbExtension, k)
  }

  lemma CgbFromBack(key: String, n: nat)
    requires n < |CgbExtension| && n < |key|
    ensures EndsWithCgb(key) ==> Back(key, n) == Back(CgbExtension, n)
  {
    if EndsWithCgb(key) {
      assert key[|key| - |CgbExtension|..][|CgbExtension| - 1 - n] == key[|key| - 1 - n];
    }
  }

  lemma ShortMatchFromBack(key: String)
    requires |key| < |CgbExtension| && MatchesFromBack(key, |key|)
    ensures ReadsBeforeStart(key)
  {
    var tail := CgbExtension[|CgbExtension| - |key|..];
    forall i | 0 <= i < |key| ensures tail[i] == key[i] {
      assert Back(key, |key| - 1 - i) == Back(CgbExtension, |key| - 1 - i);
    }
    assert tail == key;
  }

  lemma FullMatchFromBack(key: String)
    requires MatchesFromBack(key, |CgbExtension|)
    ensures EndsWithCgb(key)
  {
    var tail := key[|key| - |CgbExtension|..];
    forall i | 0 <= i < |CgbExtension| ensures tail[i] == CgbExtension[i] {
      assert Back(key, |CgbExtension| - 1 - i) == Back(CgbExtension, |CgbExtension| - 1 - i);
    }
    assert tail == CgbExtension;
  }

  /** getRuleFileEntry: the first resolve-map key ending in ".cgb", or empty.
    * A key up to the match must not be one the backward comparison reads in
    * front of. */
  method GetRuleFileEntry(keys: seq<String>) returns (entry: String)
    requires forall i :: 0 <= i < |keys| && ReadsBeforeStart(keys[i]) ==>
      exists j :: 0 <= j < i && EndsWithCgb(keys[j])
    ensures FirstCgbKey(keys).None? ==> entry == []
    ensures FirstCgbKey(keys).Some? ==> entry == keys[FirstCgbKey(keys).value]
  {
    for k := 0 to |keys|
      invariant forall j :: 0 <= j < k ==> !EndsWithCgb(keys[j])
    {
      var key := keys[k];
      var matches := EqualsCgbFromBack(key);
      if matches {
        FirstCgbKeyAt(keys, k);
        return key;
      }
    }
    return [];
  }

  lemma {:induction false} FirstCgbKeyAt(keys: seq<String>, k: nat)
    requires k < |keys| && EndsWithCgb(keys[k])
    requires forall j :: 0 <= j < k ==> !EndsWithCgb(keys[j])
    ensures FirstCgbKey(keys) == Some(k)
  {
    if k > 0 {
      FirstCgbKeyAt(keys[1..], k - 1);
    }
  }

  const AnnotStartRule: String := "@StartRule"

  predicate IsStartRule(rule: RuleInfo.Entry)
  {
    rule.numParameters == 0 &&
    exists a :: 0 <= a < |rule.annotations| && rule.annotations[a].name == AnnotStartRule
  }

  /** The index of the first start rule. */
  function FirstStartRule(rules: seq<RuleInfo.Entry>): (r: Option<nat>)
    ensures r.Some? ==> r.value < |rules| && IsStartRule(rules[r.value])
    ensures r.Some? ==> forall j :: 0 <= j < r.value ==> !IsStartRule(rules[j])
    ensures r.None? ==> forall j :: 0 <= j < |rules| ==> !IsStartRule(rules[j])
  {
    if |rules| == 0 then None
    else if IsStartRule(rules[0]) then Some(0)
    else match FirstStartRule(rules[1..])
      case None => None
      case Some(i) => Some(i + 1)
  }

  lemma {:induction false} FirstStartRuleAt(rules: seq<RuleInfo.Entry>, k: nat)
    requires k < |rules| && IsStartRule(rules[k])
    requires forall j :: 0 <= j < k ==> !IsStartRule(rules[j])
    ensures FirstStartRule(rules) == Some(k)
  {
    if k > 0 {
      FirstStartRuleAt(rules[1..], k - 1);
    }
  }

  /** detectStartRule: the name of the first rule without parameters that
    * carries the @StartRule annotation, or empty. */
  method DetectStartRule(info: RuleInfo.RuleFileInfo) returns (name: String)
    ensures FirstStartRule(info.rules).None? ==> name == []
    ensures FirstStartRule(info.rules).Some? ==> name == info.rules[FirstStartRule(info.rules).value].name
  {
    var rules := info.rules;
    for r := 0 to |rules|
      invariant forall j :: 0 <= j < r ==> !IsStartRule(rules[j])
    {
      var rule := rules[r];
      if rule.numParameters > 0 {
        continue;
      }
      for a := 0 to |rule.annotations|
        invariant forall b :: 0 <= b < a ==> rule.annotations[b].name != AnnotStartRule
      {
        if rule.annotations[a].name == AnnotStartRule {
          FirstStartRuleAt(rules, r);
          return rule.name;
        }
      }
    }
    return [];
  }

  // ---------------------------------------------------------------------
  // Joining and caching
  // ---------------------------------------------------------------------

  /** The elements with `delim` between consecutive ones. */
  function Joined(xs: seq<String>, delim: String): (r: String)
    ensures |xs| == 1 ==> r == xs[0]
  {
    if |xs| == 0 then []
    else if |xs| == 1 then xs[0]
    else Joined(xs[..|xs| - 1], delim) + delim + xs[|xs| - 1]
  }

  /** join: every element but the last is followed by the delimiter, then
    * the last element is written. */
  method Join(xs: seq<String>, delim: String) returns (r: String)
    ensures r == Joined(xs, delim)
  {
    r := [];
    if |xs| == 0 {
      return;
    }
    var i := 0;
    while i < |xs| - 1
      invariant 0 <= i <= |xs| - 1
      invariant i == 0 ==> r == []
      invariant i > 0 ==> r == Joined(xs[..i], delim) + delim
    {
      assert xs[..i + 1][..i] == xs[..i];
      r := r + xs[i] + delim;
      i := i + 1;
    }
    r := r + xs[|xs| - 1];
    assert xs[..|xs| - 1 + 1] == xs;
  }

  function TotalLength(xs: seq<String>): nat
  {
    if |xs| == 0 then 0 else TotalLength(xs[..|xs| - 1]) + |xs[|xs| - 1]|
  }

  /** The joined text has no leading or trailing delimiter: it starts with
    * the first element and ends with the last. */
  lemma {:induction false} JoinedEnds(xs: seq<String>, delim: String)
    requires |xs| > 0
    ensures IsPrefix(xs[0], Joined(xs, delim))
    ensures IsSuffix(xs[|xs| - 1], Joined(xs, delim))
  {
    if |xs| > 1 {
      JoinedEnds(xs[..|xs| - 1], delim);
      var front := Joined(xs[..|xs| - 1], delim);
      assert (front + delim + xs[|xs| - 1])[..|xs[0]|] == front[..|xs[0]|];
    }
  }

  /** Besides the elements, the joined text holds exactly n - 1 delimiters. */
  lemma {:induction false} JoinedLength(xs: seq<String>, delim: String)
    requires |xs| > 0
    ensures |Joined(xs, delim)| == TotalLength(xs) + (|xs| - 1) * |delim|
  {
    if |xs| > 1 {
      JoinedLength(xs[..|xs| - 1], delim);
      assert (|xs| - 2) * |delim| + |delim| == (|xs| - 1) * |delim|;
    }
  }

  /** getCachedValue: a hit returns the stored value without computing; a
    * miss computes the value once and stores it under the key. */
  method GetCachedValue<K(==), V>(cache: map<K, V>, key: K, valueFunc: () -> V)
    returns (value: V, next: map<K, V>, computed: bool)
    ensures computed <==> key !in cache
    ensures key in cache ==> value == cache[key] && next == cache
    ensures key !in cache ==> value == valueFunc() && next == cache[key := value]
    ensures key in next && next[key] == value
  {
    if key in cache {
      return cache[key], cache, false;
    }
    value := valueFunc();
    next := cache[key := value];
    computed := true;
  }
}
