/**
 * The JavaScript string operations the command pipeline relies on:
 * `toLowerCase` (restricted to ASCII), `startsWith`, `includes`, `trim`,
 * and `replace` with a case-insensitive alternation regex, either the first
 * occurrence (no `g` flag) or every occurrence (`g` flag).
 */
module Text {
  import opened Common

  function ToLowerChar(c: char): char
  {
    if 'A' <= c <= 'Z' then (c as int + 32) as char else c
  }

  /** ASCII lower-casing; it never changes the length. */
  function ToLower(s: string): (r: string)
    ensures |r| == |s|
    ensures forall i :: 0 <= i < |s| ==> r[i] == ToLowerChar(s[i])
  {
    if s == [] then [] else [ToLowerChar(s[0])] + ToLower(s[1..])
  }

  /** The characters JavaScript's `trim` removes and `\s` matches (WhiteSpace and LineTerminator). */
  predicate IsWhiteSpace(c: char)
  {
    c == ' ' || c == '\t' || c == '\n' || c == '\r' || c == '\U{000B}' || c == '\U{000C}'
    || c == '\U{00A0}' || c == '\U{1680}' || ('\U{2000}' <= c <= '\U{200A}')
    || c == '\U{2028}' || c == '\U{2029}' || c == '\U{202F}' || c == '\U{205F}'
    || c == '\U{3000}' || c == '\U{FEFF}'
  }

  /** `\d` in a JavaScript regular expression: ASCII digits only. */
  predicate IsDigit(c: char)
  {
    '0' <= c <= '9'
  }

  predicate StartsWith(s: string, prefix: string)
  {
    |prefix| <= |s| && s[..|prefix|] == prefix
  }

  /** `s.includes(needle)`, scanning from the left. */
  predicate Contains(s: string, needle: string)
    decreases |s|
  {
    StartsWith(s, needle) || (|s| > 0 && Contains(s[1..], needle))
  }

  lemma {:induction false} ContainsAt(s: string, needle: string, k: nat)
    requires k + |needle| <= |s| && s[k..k + |needle|] == needle
    ensures Contains(s, needle)
    decreases k
  {
    if k == 0 {
      assert s[..|needle|] == needle;
    } else {
      assert s[1..][k - 1..k - 1 + |needle|] == s[k..k + |needle|];
      ContainsAt(s[1..], needle, k - 1);
    }
  }

  /** A text that contains `prefix + needle` contains `needle`. */
  lemma {:induction false} ContainsTail(s: string, prefix: string, needle: string)
    requires Contains(s, prefix + needle)
    ensures Contains(s, needle)
    decreases |s|
  {
    if StartsWith(s, prefix + needle) {
      var p := prefix + needle;
      assert s[|prefix|..|prefix| + |needle|] == p[|prefix|..] == needle;
      ContainsAt(s, needle, |prefix|);
    } else {
      ContainsTail(s[1..], prefix, needle);
      assert Contains(s[1..], needle);
    }
  }

  /** `\w` in a JavaScript regular expression: ASCII letters, digits and `_`. */
  predicate IsWordChar(c: char)
  {
    'a' <= c <= 'z' || 'A' <= c <= 'Z' || IsDigit(c) || c == '_'
  }

  /** `needle` occurs at position `k` with no word character on either side. */
  predicate WordAt(s: string, needle: string, k: nat)
  {
    k + |needle| <= |s| && s[k..k + |needle|] == needle
    && (k == 0 || !IsWordChar(s[k - 1]))
    && (k + |needle| == |s| || !IsWordChar(s[k + |needle|]))
  }

  /** `/\bneedle\b/.test(s)` for a needle made of word characters. */
  predicate ContainsWord(s: string, needle: string)
  {
    exists k :: 0 <= k <= |s| && WordAt(s, needle, k)
  }

  /** A whole-word occurrence is an occurrence. */
  lemma WordIsContained(s: string, needle: string)
    requires ContainsWord(s, needle)
    ensures Contains(s, needle)
  {
    var k :| 0 <= k <= |s| && WordAt(s, needle, k);
    ContainsAt(s, needle, k);
  }

  /** A string without leading or trailing white space. */
  predicate IsTrimmed(s: string)
  {
    s == [] || (!IsWhiteSpace(s[0]) && !IsWhiteSpace(s[|s| - 1]))
  }

  function TrimStart(s: string): (r: string)
    ensures |r| <= |s| && r == s[|s| - |r|..]
    ensures r == [] || !IsWhiteSpace(r[0])
    ensures forall i :: 0 <= i < |s| - |r| ==> IsWhiteSpace(s[i])
    decreases |s|
  {
    if s != [] && IsWhiteSpace(s[0]) then TrimStart(s[1..]) else s
  }

  function TrimEnd(s: string): (r: string)
    ensures |r| <= |s| && r == s[..|r|]
    ensures r == [] || !IsWhiteSpace(r[|r| - 1])
    ensures forall i :: |r| <= i < |s| ==> IsWhiteSpace(s[i])
    decreases |s|
  {
    if s != [] && IsWhiteSpace(s[|s| - 1]) then TrimEnd(s[..|s| - 1]) else s
  }

  /** `s.trim()`: `s` without the white space at either end; empty exactly when `s` is all white space. */
  function Trim(s: string): (r: string)
    ensures IsTrimmed(r) && |r| <= |s|
    ensures r == [] <==> forall i :: 0 <= i < |s| ==> IsWhiteSpace(s[i])
  {
    var t := TrimStart(s);
    var r := TrimEnd(t);
    assert r == [] ==> forall i :: 0 <= i < |s| ==> IsWhiteSpace(s[i]) by {
      if r == [] {
        assert t == [];
      }
    }
    assert (forall i :: 0 <= i < |s| ==> IsWhiteSpace(s[i])) ==> t == [] by {
      if t != [] { assert t[0] == s[|s| - |t|]; }
    }
    r
  }

  /** `"${s}"` in a template literal. */
  function Quoted(s: string): string
  {
    "\"" + s + "\""
  }

  /** Whether `s` begins with `pattern` case-insensitively (`pattern` is lower-case ASCII). */
  predicate StartsWithIgnoringCase(s: string, pattern: string)
  {
    |pattern| <= |s| && ToLower(s[..|pattern|]) == pattern
  }

  predicate NonEmptyAlternatives(alternatives: seq<string>)
  {
    forall k :: 0 <= k < |alternatives| ==> |alternatives[k]| > 0
  }

  /**
   * The length of the first alternative of `a|b|c` (flag `i`) that matches at the
   * start of `s`; alternatives are tried left to right, as JavaScript does.
   */
  function MatchAlternative(s: string, alternatives: seq<string>): (r: Option<nat>)
    requires NonEmptyAlternatives(alternatives)
    ensures r.Some? ==> 0 < r.value <= |s|
    ensures r.Some? <==> exists k :: 0 <= k < |alternatives| && StartsWithIgnoringCase(s, alternatives[k])
  {
    if alternatives == [] then None
    else if StartsWithIgnoringCase(s, alternatives[0]) then Some(|alternatives[0]|)
    else
      var r := MatchAlternative(s, alternatives[1..]);
      assert forall k :: 1 <= k < |alternatives| ==> alternatives[k] == alternatives[1..][k - 1];
      r
  }

  /** `s.replace(/a|b|c/i, '')`: removes the leftmost match only. */
  function RemoveFirst(s: string, alternatives: seq<string>): (r: string)
    requires NonEmptyAlternatives(alternatives)
    ensures |r| <= |s|
    decreases |s|
  {
    if s == [] then []
    else match MatchAlternative(s, alternatives)
      case Some(n) => s[n..]
      case None => [s[0]] + RemoveFirst(s[1..], alternatives)
  }

  /** `s.replace(/a|b|c/gi, '')`: removes every match, scanning left to right. */
  function RemoveAll(s: string, alternatives: seq<string>): (r: string)
    requires NonEmptyAlternatives(alternatives)
    ensures |r| <= |s|
    decreases |s|
  {
    if s == [] then []
    else match MatchAlternative(s, alternatives)
      case Some(n) => RemoveAll(s[n..], alternatives)
      case None => [s[0]] + RemoveAll(s[1..], alternatives)
  }

  /**
   * Removing the first match cuts out exactly the leftmost occurrence: when no
   * alternative matches before position `k` and one of length `n` matches at `k`,
   * the result is `s` without `s[k..k + n]`.
   */
  lemma RemoveFirstAt(s: string, alternatives: seq<string>, k: nat, n: nat)
    requires NonEmptyAlternatives(alternatives)
    requires k < |s| && MatchAlternative(s[k..], alternatives) == Some(n)
    requires forall j :: 0 <= j < k ==> MatchAlternative(s[j..], alternatives).None?
    ensures k + n <= |s| && RemoveFirst(s, alternatives) == s[..k] + s[k + n..]
  {
    RemoveFirstFrom(s, alternatives, 0, k, n);
    assert s[0..] == s && s[0..k] == s[..k];
  }

  /** `RemoveFirstAt` for the suffix `s[i..]`, by induction on the distance to the match. */
  lemma {:induction false} RemoveFirstFrom(s: string, alternatives: seq<string>, i: nat, k: nat, n: nat)
    requires NonEmptyAlternatives(alternatives)
    requires i <= k < |s| && MatchAlternative(s[k..], alternatives) == Some(n)
    requires forall j :: i <= j < k ==> MatchAlternative(s[j..], alternatives).None?
    ensures k + n <= |s| && RemoveFirst(s[i..], alternatives) == s[i..k] + s[k + n..]
    decreases k - i
  {
    if i == k {
      assert s[k..][n..] == s[k + n..];
      assert s[k..k] + s[k + n..] == s[k + n..];
    } else {
      RemoveFirstFrom(s, alternatives, i + 1, k, n);
      assert s[i..][1..] == s[i + 1..];
      KeepHead(s, i, k, RemoveFirst(s[i..], alternatives), RemoveFirst(s[i + 1..], alternatives), s[k + n..]);
    }
  }

  /**
   * Removing every match cuts out the leftmost one and carries on after it: when no
   * alternative matches before position `k` and one of length `n` matches at `k`, the
   * result is `s[..k]` followed by the removal applied to what follows the match.
   */
  lemma RemoveAllAt(s: string, alternatives: seq<string>, k: nat, n: nat)
    requires NonEmptyAlternatives(alternatives)
    requires k < |s| && MatchAlternative(s[k..], alternatives) == Some(n)
    requires forall j :: 0 <= j < k ==> MatchAlternative(s[j..], alternatives).None?
    ensures k + n <= |s| && RemoveAll(s, alternatives) == s[..k] + RemoveAll(s[k + n..], alternatives)
  {
    RemoveAllFrom(s, alternatives, 0, k, n);
    assert s[0..] == s && s[0..k] == s[..k];
  }

  /** `RemoveAllAt` for the suffix `s[i..]`, by induction on the distance to the match. */
  lemma {:induction false} RemoveAllFrom(s: string, alternatives: seq<string>, i: nat, k: nat, n: nat)
    requires NonEmptyAlternatives(alternatives)
    requires i <= k < |s| && MatchAlternative(s[k..], alternatives) == Some(n)
    requires forall j :: i <= j < k ==> MatchAlternative(s[j..], alternatives).None?
    ensures k + n <= |s| && RemoveAll(s[i..], alternatives) == s[i..k] + RemoveAll(s[k + n..], alternatives)
    decreases k - i
  {
    if i == k {
      RemoveAllMatchedAtStart(s[k..], alternatives, n);
      assert s[k..][n..] == s[k + n..];
    } else {
      RemoveAllFrom(s, alternatives, i + 1, k, n);
      RemoveAllUnmatched(s, alternatives, i);
      KeepHead(s, i, k, RemoveAll(s[i..], alternatives), RemoveAll(s[i + 1..], alternatives), RemoveAll(s[k + n..], alternatives));
    }
  }

  /** With a match at its start, `replace` with `g` drops it and carries on. */
  lemma RemoveAllMatchedAtStart(s: string, alternatives: seq<string>, n: nat)
    requires NonEmptyAlternatives(alternatives)
    requires s != [] && MatchAlternative(s, alternatives) == Some(n)
    ensures n <= |s| && RemoveAll(s, alternatives) == s[..0] + RemoveAll(s[n..], alternatives)
  {
    assert s[..0] + RemoveAll(s[n..], alternatives) == RemoveAll(s[n..], alternatives);
  }

  /** Without a match at position `i`, `replace` with `g` keeps the character there. */
  lemma RemoveAllUnmatched(s: string, alternatives: seq<string>, i: nat)
    requires NonEmptyAlternatives(alternatives) && i < |s| && MatchAlternative(s[i..], alternatives).None?
    ensures RemoveAll(s[i..], alternatives) == [s[i]] + RemoveAll(s[i + 1..], alternatives)
  {
    assert s[i..][1..] == s[i + 1..];
  }

  /** The slicing step of `RemoveAllFrom`: the kept character joins the kept prefix. */
  lemma KeepHead(s: string, i: nat, k: nat, whole: string, tail: string, rest: string)
    requires i < k <= |s|
    requires whole == [s[i]] + tail
    requires tail == s[i + 1..k] + rest
    ensures whole == s[i..k] + rest
  {
    assert s[i..k] == [s[i]] + s[i + 1..k];
  }

  /** A text in which no alternative matches anywhere is left as it is, by either form. */
  lemma {:induction false} RemoveNoMatch(s: string, alternatives: seq<string>)
    requires NonEmptyAlternatives(alternatives)
    requires forall j :: 0 <= j < |s| ==> MatchAlternative(s[j..], alternatives).None?
    ensures RemoveFirst(s, alternatives) == s && RemoveAll(s, alternatives) == s
    decreases |s|
  {
    if s != [] {
      assert s[0..] == s;
      forall j | 0 <= j < |s| - 1
        ensures MatchAlternative(s[1..][j..], alternatives).None?
      {
        assert s[1..][j..] == s[j + 1..];
      }
      RemoveNoMatch(s[1..], alternatives);
    }
  }

  /** The white space at the start of `s`, dropped (the greedy `\s+`/`\s*`). */
  function DropWhiteSpace(s: string): (r: string)
    ensures |r| <= |s| && r == s[|s| - |r|..]
    ensures r == [] || !IsWhiteSpace(r[0])
    decreases |s|
  {
    if s != [] && IsWhiteSpace(s[0]) then DropWhiteSpace(s[1..]) else s
  }

  /** The longest run of digits at the start of `s` (the greedy `\d+`). */
  function LeadingDigits(s: string): (r: string)
    ensures |r| <= |s| && r == s[..|r|]
    ensures forall i :: 0 <= i < |r| ==> IsDigit(r[i])
    ensures |r| == |s| || !IsDigit(s[|r|])
    decreases |s|
  {
    if s != [] && IsDigit(s[0]) then [s[0]] + LeadingDigits(s[1..]) else []
  }

  /** `parseInt(digits, 10)` for a string of ASCII digits, most significant first. */
  function DecimalValue(digits: string): nat
    requires forall i :: 0 <= i < |digits| ==> IsDigit(digits[i])
    decreases |digits|
  {
    if digits == [] then 0
    else
      var last := digits[|digits| - 1];
      assert IsDigit(last);
      DecimalValue(digits[..|digits| - 1]) * 10 + (last as int - '0' as int)
  }

  /** The decimal rendering of a count, as a template literal `${n}` prints it. */
  function DecimalString(n: nat): (r: string)
    ensures |r| > 0 && forall i :: 0 <= i < |r| ==> IsDigit(r[i])
    decreases n
  {
    var last := [('0' as int + n % 10) as char];
    if n < 10 then last else DecimalString(n / 10) + last
  }

  /** Reading back a rendered count gives the count: `parseInt(String(n), 10) == n`. */
  lemma {:induction false} DecimalRoundTrip(n: nat)
    ensures DecimalValue(DecimalString(n)) == n
    decreases n
  {
    var r := DecimalString(n);
    if n >= 10 {
      DecimalRoundTrip(n / 10);
      assert r[..|r| - 1] == DecimalString(n / 10);
    }
  }
}
