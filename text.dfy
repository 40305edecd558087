/**
 * The parts of Python's `str` behaviour that the modelled code relies on.
 * Strings are `seq<char>`. Case folding and the character classes `\w`, `\d`
 * are restricted to ASCII (see README, "Left out").
 */
module Text {

  predicate IsAsciiUpper(c: char) { 'A' <= c <= 'Z' }

  predicate IsDigit(c: char) { '0' <= c <= '9' }

  predicate IsAsciiLetter(c: char) { 'a' <= c <= 'z' || 'A' <= c <= 'Z' }

  /** The regex class `\w`: letters, digits and the underscore. */
  predicate IsWordChar(c: char) { IsAsciiLetter(c) || IsDigit(c) || c == '_' }

  predicate AllWordChars(s: string) { forall i :: 0 <= i < |s| ==> IsWordChar(s[i]) }

  /** The characters for which Python's `str.isspace()` holds. */
  predicate IsSpace(c: char)
  {
    c == ' ' || '\t' <= c <= '\r' || '\U{1c}' <= c <= '\U{1f}' || c == '\U{85}' || c == '\U{a0}'
    || c == '\U{1680}' || '\U{2000}' <= c <= '\U{200a}' || c == '\U{2028}' || c == '\U{2029}'
    || c == '\U{202f}' || c == '\U{205f}' || c == '\U{3000}'
  }

  function LowerChar(c: char): (r: char)
    ensures IsAsciiUpper(c) ==> IsAsciiLetter(r) && !IsAsciiUpper(r)
    ensures !IsAsciiUpper(c) ==> r == c
  {
    if IsAsciiUpper(c) then (c as int + 32) as char else c
  }

  /** `s.lower()` */
  function Lower(s: string): (r: string)
    ensures |r| == |s|
    ensures forall i :: 0 <= i < |s| ==> r[i] == LowerChar(s[i])
  {
    seq(|s|, i requires 0 <= i < |s| => LowerChar(s[i]))
  }

  predicate StartsWith(s: string, prefix: string)
  {
    |prefix| <= |s| && s[..|prefix|] == prefix
  }

  predicate EndsWith(s: string, suffix: string)
  {
    |suffix| <= |s| && s[|s| - |suffix|..] == suffix
  }

  /** `sub in s` */
  predicate Contains(s: string, sub: string)
    decreases |s|
  {
    StartsWith(s, sub) || (|s| > 0 && Contains(s[1..], sub))
  }

  /** `s.rfind(c)`: the last index of `c`, or -1. */
  function LastIndexOf(s: string, c: char): (r: int)
    ensures -1 <= r < |s|
    ensures r >= 0 ==> s[r] == c
    ensures forall j :: r < j < |s| ==> s[j] != c
  {
    if |s| == 0 then -1
    else if s[|s| - 1] == c then |s| - 1
    else LastIndexOf(s[..|s| - 1], c)
  }

  /** `s.find(c)`: the first index of `c`, or -1. */
  function IndexOf(s: string, c: char): (r: int)
    ensures -1 <= r < |s|
    ensures r >= 0 ==> s[r] == c
    ensures forall j :: 0 <= j < |s| && (r < 0 || j < r) ==> s[j] != c
  {
    if |s| == 0 then -1
    else if s[0] == c then 0
    else
      var k := IndexOf(s[1..], c);
      assert forall j :: 1 <= j < |s| ==> s[j] == s[1..][j - 1];
      if k < 0 then -1 else k + 1
  }

  /** `s[i:j]` for non-negative bounds: Python clamps both bounds to the string. */
  function Slice(s: string, i: nat, j: nat): (r: string)
    ensures i <= j <= |s| ==> r == s[i..j]
    ensures |r| <= |s|
  {
    var lo := if i <= |s| then i else |s|;
    var hi := if j <= |s| then j else |s|;
    if lo <= hi then s[lo..hi] else ""
  }

  /** `s.replace(a, b)` for one-character `a` and `b`. */
  function ReplaceChar(s: string, a: char, b: char): (r: string)
    ensures |r| == |s|
    ensures forall i :: 0 <= i < |s| ==> r[i] == (if s[i] == a then b else s[i])
  {
    seq(|s|, i requires 0 <= i < |s| => if s[i] == a then b else s[i])
  }

  /** How many whitespace characters `s` starts with. */
  function LeadingSpaces(s: string): (n: nat)
    ensures n <= |s|
  {
    if |s| > 0 && IsSpace(s[0]) then 1 + LeadingSpaces(s[1..]) else 0
  }

  /** How many whitespace characters `s` ends with. */
  function TrailingSpaces(s: string): (n: nat)
    ensures n <= |s|
  {
    if |s| > 0 && IsSpace(s[|s| - 1]) then 1 + TrailingSpaces(s[..|s| - 1]) else 0
  }

  /** `s.lstrip()` */
  function StripLeading(s: string): string
  {
    s[LeadingSpaces(s)..]
  }

  /** `s.rstrip()` */
  function StripTrailing(s: string): string
  {
    s[..|s| - TrailingSpaces(s)]
  }

  /** `s.strip()` */
  function Strip(s: string): (r: string)
  {
    StripTrailing(StripLeading(s))
  }

  /** Stripping stops at the first character that is not whitespace. */
  lemma {:induction false} StripLeadingSpaces(s: string)
    ensures StripLeading(s) == [] || !IsSpace(StripLeading(s)[0])
    decreases |s|
  {
    if |s| > 0 && IsSpace(s[0]) {
      StripLeadingSpaces(s[1..]);
    }
  }

  /** Stripping stops at the last character that is not whitespace. */
  lemma {:induction false} StripTrailingSpaces(s: string)
    ensures StripTrailing(s) == [] || !IsSpace(StripTrailing(s)[|StripTrailing(s)| - 1])
    decreases |s|
  {
    if |s| > 0 && IsSpace(s[|s| - 1]) {
      StripTrailingSpaces(s[..|s| - 1]);
    }
  }

  /** Stripping keeps a contiguous piece of the string, so it adds no newline. */
  lemma StripNoNewline(u: string)
    requires forall k :: 0 <= k < |u| ==> u[k] != '\n'
    ensures forall k :: 0 <= k < |Strip(u)| ==> Strip(u)[k] != '\n'
  {
    var lead := StripLeading(u);
    var r := StripTrailing(lead);
    assert forall k :: 0 <= k < |lead| ==> lead[k] == u[|u| - |lead| + k];
    assert forall k :: 0 <= k < |r| ==> r[k] == lead[k];
  }

  /** A stripped string starts and ends with a character that is not whitespace. */
  lemma StripEnds(u: string)
    ensures Strip(u) != "" ==> !IsSpace(Strip(u)[0]) && !IsSpace(Strip(u)[|Strip(u)| - 1])
  {
    var lead := StripLeading(u);
    StripLeadingSpaces(u);
    StripTrailingSpaces(lead);
    if Strip(u) != "" {
      assert Strip(u)[0] == lead[0];
    }
  }

  /** `sep.join(parts)` */
  function Join(sep: string, parts: seq<string>): string
  {
    if |parts| == 0 then ""
    else if |parts| == 1 then parts[0]
    else Join(sep, parts[..|parts| - 1]) + sep + parts[|parts| - 1]
  }

  /** `s.split(c)` for a one-character separator: the fields between the occurrences of `c`. */
  function Split(s: string, c: char): (r: seq<string>)
    ensures |r| >= 1
    ensures forall k :: 0 <= k < |r| ==> c !in r[k]
    ensures c !in s <==> |r| == 1
    ensures c !in s ==> r == [s]
    decreases |s|
  {
    var i := LastIndexOf(s, c);
    if i < 0 then
      assert forall j :: 0 <= j < |s| ==> s[j] != c;
      [s]
    else
      var tail := s[i + 1..];
      assert forall j :: 0 <= j < |tail| ==> tail[j] == s[i + 1 + j];
      Split(s[..i], c) + [tail]
  }

  /** The text after the last `c` (the whole string when there is none): `s.split(c)[-1]`. */
  function AfterLast(s: string, c: char): (r: string)
    ensures r == Split(s, c)[|Split(s, c)| - 1]
    ensures c !in r && EndsWith(s, r)
    ensures c in s ==> |r| < |s| && s[|s| - |r| - 1] == c
    ensures c !in s ==> r == s
  {
    var i := LastIndexOf(s, c);
    if i < 0 then s else s[i + 1..]
  }

  /** The subject that a pattern anchored by `$` sees: Python's `$` also matches just before a final newline. */
  function DropFinalNewline(s: string): (t: string)
    ensures t == s || (t + "\n" == s)
  {
    if |s| > 0 && s[|s| - 1] == '\n' then s[..|s| - 1] else s
  }

  lemma {:induction false} SplitJoin(s: string, c: char)
    ensures Join([c], Split(s, c)) == s
    decreases |s|
  {
    var i := LastIndexOf(s, c);
    if i >= 0 {
      var parts, tail := Split(s[..i], c), s[i + 1..];
      SplitJoin(s[..i], c);
      var all := parts + [tail];
      assert Split(s, c) == all;
      assert all[..|all| - 1] == parts && all[|all| - 1] == tail;
      assert Join([c], all) == Join([c], parts) + [c] + tail;
      assert s == s[..i] + [c] + tail;
    }
  }
}
