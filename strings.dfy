/**
 * The parts of Rust's `str` API that the scanner's decisions rest on:
 * lower-casing, `starts_with`, `contains`, `trim` and `lines`.
 * Strings are sequences of Unicode scalar values, as a Rust `String` is.
 */
module Strings {

  /** Lower-casing of one character; only ASCII letters change. */
  function LowerChar(c: char): (r: char)
    ensures !('A' <= r <= 'Z')
    ensures 'A' <= c <= 'Z' ==> 'a' <= r <= 'z' && r as int - 'a' as int == c as int - 'A' as int
    ensures !('A' <= c <= 'Z') ==> r == c
  {
    if 'A' <= c <= 'Z' then (c as int + 32) as char else c
  }

  /** `to_lowercase`, restricted to ASCII letters. */
  function ToLower(s: string): (r: string)
    ensures |r| == |s|
    ensures forall i :: 0 <= i < |s| ==> r[i] == LowerChar(s[i])
    ensures forall i :: 0 <= i < |r| ==> !('A' <= r[i] <= 'Z')
  {
    seq(|s|, i requires 0 <= i < |s| => LowerChar(s[i]))
  }

  /** `s.starts_with(prefix)`. */
  predicate StartsWith(s: string, prefix: string): (b: bool)
    ensures b <==> |prefix| <= |s| && forall i :: 0 <= i < |prefix| ==> s[i] == prefix[i]
  {
    |prefix| <= |s| && s[..|prefix|] == prefix
  }

  /** `p` occurs in `s` starting at index `i`. */
  ghost predicate OccursAt(s: string, p: string, i: int) {
    0 <= i && i + |p| <= |s| && s[i..i + |p|] == p
  }

  /** `s.contains(p)`: a left-to-right search for `p` in `s`. */
  predicate Contains(s: string, p: string): (b: bool)
    ensures StartsWith(s, p) ==> b
    ensures b ==> |p| <= |s|
    decreases |s|
  {
    StartsWith(s, p) || (s != [] && Contains(s[1..], p))
  }

  /** The search finds `p` exactly when `p` occurs somewhere in `s`. */
  lemma {:induction false} ContainsIff(s: string, p: string)
    ensures Contains(s, p) <==> exists i :: OccursAt(s, p, i)
    decreases |s|
  {
    if StartsWith(s, p) {
      assert OccursAt(s, p, 0);
    } else if s != [] {
      ContainsIff(s[1..], p);
      if Contains(s[1..], p) {
        var i :| OccursAt(s[1..], p, i);
        assert s[1..][i..i + |p|] == s[i + 1..i + 1 + |p|];
        assert OccursAt(s, p, i + 1);
      } else {
        forall i | 0 <= i && i + |p| <= |s| ensures !OccursAt(s, p, i) {
          if i == 0 {
            assert s[..|p|] == s[i..i + |p|];
          } else {
            assert !OccursAt(s[1..], p, i - 1);
            assert s[1..][i - 1..i - 1 + |p|] == s[i..i + |p|];
          }
        }
      }
    }
  }

  /** `char::is_whitespace`: the Unicode White_Space property. */
  predicate IsWhitespace(c: char) {
    || '\t' <= c <= '\r'
    || c == ' '
    || c == '\U{0085}'
    || c == '\U{00A0}'
    || c == '\U{1680}'
    || '\U{2000}' <= c <= '\U{200A}'
    || c == '\U{2028}'
    || c == '\U{2029}'
    || c == '\U{202F}'
    || c == '\U{205F}'
    || c == '\U{3000}'
  }

  /** Number of whitespace characters at the start of `s`. */
  function LeadingWhitespace(s: string): (k: nat)
    ensures k <= |s|
    ensures forall i :: 0 <= i < k ==> IsWhitespace(s[i])
    ensures k < |s| ==> !IsWhitespace(s[k])
  {
    if s != [] && IsWhitespace(s[0]) then 1 + LeadingWhitespace(s[1..]) else 0
  }

  /** Length of `s` once its trailing whitespace is dropped. */
  function TrailingStart(s: string): (e: nat)
    ensures e <= |s|
    ensures forall i :: e <= i < |s| ==> IsWhitespace(s[i])
    ensures e > 0 ==> !IsWhitespace(s[e - 1])
  {
    if s != [] && IsWhitespace(s[|s| - 1]) then TrailingStart(s[..|s| - 1]) else |s|
  }

  /** `s.trim()`: `s` without its leading and trailing whitespace. */
  function Trim(s: string): (r: string)
    ensures r == [] <==> forall i :: 0 <= i < |s| ==> IsWhitespace(s[i])
    ensures r != [] ==> !IsWhitespace(r[0]) && !IsWhitespace(r[|r| - 1])
    ensures exists i, j ::
      && 0 <= i <= j <= |s| && r == s[i..j]
      && (forall k :: 0 <= k < i ==> IsWhitespace(s[k]))
      && (forall k :: j <= k < |s| ==> IsWhitespace(s[k]))
  {
    var a, e := LeadingWhitespace(s), TrailingStart(s);
    if e <= a then
      assert s[a..a] == [];
      []
    else
      s[a..e]
  }

  /** A string that starts and ends with non-whitespace is its own trim. */
  lemma NothingToTrim(s: string)
    requires s != [] && !IsWhitespace(s[0]) && !IsWhitespace(s[|s| - 1])
    ensures Trim(s) == s
  {
    assert LeadingWhitespace(s) == 0;
    assert TrailingStart(s) == |s|;
    assert s[0..|s|] == s;
  }

  /** Index of the first '\n' in `s`, or `|s|` when there is none. */
  function NewlineIndex(s: string): (k: nat)
    ensures k <= |s|
    ensures forall i :: 0 <= i < k ==> s[i] != '\n'
    ensures k < |s| ==> s[k] == '\n'
  {
    if s == [] || s[0] == '\n' then 0 else 1 + NewlineIndex(s[1..])
  }

  /** Drops one '\r' that ended a "\r\n"-terminated line. */
  function StripCarriageReturn(line: string): string {
    if line != [] && line[|line| - 1] == '\r' then line[..|line| - 1] else line
  }

  /**
   * `s.lines()`: the pieces of `s` between '\n' characters, each without
   * a '\r' that preceded its '\n'; a final '\n' does not start an empty line.
   */
  function Lines(s: string): (lines: seq<string>)
    ensures lines == [] <==> s == []
    ensures forall line :: line in lines ==> '\n' !in line
    decreases |s|
  {
    if s == [] then []
    else
      var k := NewlineIndex(s);
      if k == |s| then [s]
      else [StripCarriageReturn(s[..k])] + Lines(s[k + 1..])
  }

  /** Every line followed by '\n', concatenated. */
  function Unlines(lines: seq<string>): string {
    if lines == [] then [] else lines[0] + "\n" + Unlines(lines[1..])
  }

  /** One step of `Lines` on text whose first line is ended by '\n'. */
  lemma LinesStep(s: string, k: nat)
    requires k == NewlineIndex(s) && k < |s|
    ensures Lines(s) == [StripCarriageReturn(s[..k])] + Lines(s[k + 1..])
  {
  }

  /** One step of `Unlines`. */
  lemma UnlinesCons(line: string, lines: seq<string>)
    ensures Unlines([line] + lines) == line + "\n" + Unlines(lines)
  {
    assert ([line] + lines)[1..] == lines;
  }

  /** `s` is its first line, the '\n' that ends it, and the rest. */
  lemma SplitAtNewline(s: string, k: nat)
    requires k < |s| && s[k] == '\n'
    ensures s == s[..k] + "\n" + s[k + 1..]
  {
    assert s[..k] + "\n" == s[..k + 1];
  }

  /** A suffix of text without '\r' has no '\r' either. */
  lemma NoCarriageReturnInSuffix(s: string, j: nat)
    requires '\r' !in s && j <= |s|
    ensures '\r' !in s[j..]
  {
    forall i | 0 <= i < |s| - j ensures s[j..][i] != '\r' {
      assert s[j..][i] == s[j + i] && s[j + i] in s;
    }
  }

  /** A prefix of text without '\r' is left alone by `StripCarriageReturn`. */
  lemma NoCarriageReturnToStrip(s: string, k: nat)
    requires '\r' !in s && k <= |s|
    ensures StripCarriageReturn(s[..k]) == s[..k]
  {
    if k > 0 {
      assert s[..k][k - 1] == s[k - 1];
      assert s[k - 1] in s;
    }
  }

  /** Text without '\r' that ends in '\n' (or is empty) is recovered from its lines. */
  lemma {:induction false} UnlinesLines(s: string)
    requires '\r' !in s
    requires s == [] || s[|s| - 1] == '\n'
    ensures Unlines(Lines(s)) == s
    decreases |s|
  {
    if s != [] {
      var k := NewlineIndex(s);
      var line, rest := s[..k], s[k + 1..];
      SplitAtNewline(s, k);
      NoCarriageReturnInSuffix(s, k + 1);
      NoCarriageReturnToStrip(s, k);
      assert rest == [] || rest[|rest| - 1] == s[|s| - 1];
      UnlinesLines(rest);
      LinesStep(s, k);
      UnlinesCons(line, Lines(rest));
    }
  }

  /** Every line followed by CRLF, concatenated: how an HTTP peer frames its lines. */
  function JoinCrlf(lines: seq<string>): string {
    if lines == [] then [] else lines[0] + "\r\n" + JoinCrlf(lines[1..])
  }

  /** Text framed with CRLF: empty or ending in "\r\n", and every '\n' preceded by '\r'. */
  ghost predicate CrlfFramed(s: string) {
    && (s == [] || (|s| >= 2 && s[|s| - 2] == '\r' && s[|s| - 1] == '\n'))
    && forall i :: 0 <= i < |s| && s[i] == '\n' ==> 0 < i && s[i - 1] == '\r'
  }

  /** In CRLF-framed text the first '\n' exists and follows a '\r'. */
  lemma CrlfFirstNewline(s: string, k: nat)
    requires CrlfFramed(s) && s != [] && k == NewlineIndex(s)
    ensures 0 < k < |s| && s[k - 1] == '\r'
  {
    assert s[|s| - 1] == '\n';
  }

  /** The line before a CRLF loses exactly its '\r', and the text is that line, CRLF and the rest. */
  lemma CrlfLine(s: string, k: nat)
    requires 0 < k < |s| && s[k - 1] == '\r' && s[k] == '\n'
    ensures StripCarriageReturn(s[..k]) == s[..k - 1]
    ensures s == s[..k - 1] + "\r\n" + s[k + 1..]
  {
    assert s[..k][k - 1] == s[k - 1];
    assert s[..k][..k - 1] == s[..k - 1];
    assert s[..k - 1] + "\r\n" == s[..k + 1];
  }

  /** What follows the first CRLF of CRLF-framed text is CRLF-framed. */
  lemma CrlfRest(s: string, k: nat)
    requires CrlfFramed(s) && 0 < k < |s| && s[k - 1] == '\r' && s[k] == '\n'
    ensures CrlfFramed(s[k + 1..])
  {
    var rest := s[k + 1..];
    if rest != [] {
      assert k != |s| - 2;
      assert rest[|rest| - 2] == s[|s| - 2] && rest[|rest| - 1] == s[|s| - 1];
    }
    forall i | 0 <= i < |rest| && rest[i] == '\n' ensures 0 < i && rest[i - 1] == '\r' {
      assert rest[i] == s[k + 1 + i];
      if i > 0 {
        assert rest[i - 1] == s[k + i];
      }
    }
  }

  /** One step of `JoinCrlf`. */
  lemma JoinCrlfCons(line: string, lines: seq<string>)
    ensures JoinCrlf([line] + lines) == line + "\r\n" + JoinCrlf(lines)
  {
    assert ([line] + lines)[1..] == lines;
  }

  /** CRLF-framed text, such as an HTTP header block, is recovered by joining its lines with CRLF. */
  lemma {:induction false} JoinCrlfLines(s: string)
    requires CrlfFramed(s)
    ensures JoinCrlf(Lines(s)) == s
    decreases |s|
  {
    if s != [] {
      var k := NewlineIndex(s);
      CrlfFirstNewline(s, k);
      CrlfLine(s, k);
      CrlfRest(s, k);
      var line, rest := s[..k - 1], s[k + 1..];
      JoinCrlfLines(rest);
      LinesStep(s, k);
      JoinCrlfCons(line, Lines(rest));
    }
  }
}
