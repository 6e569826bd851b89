/**
 * The two library text transforms the word game applies to the player's
 * input before checking it: `lowercased()` and
 * `trimmingCharacters(in: .whitespacesAndNewlines)`, restated over
 * `seq<char>`.
 *
 * Lowercasing is modelled for the ASCII letters 'A'..'Z' only; every other
 * character is left as it is. Trimming uses the whole
 * `whitespacesAndNewlines` set: the Unicode space separators, the line and
 * paragraph separators, U+0009..U+000D and U+0085.
 */
module Text {

  predicate IsWhitespace(c: char)
  {
    c == ' ' || '\t' <= c <= '\r' || c == '\U{85}' || c == '\U{A0}' || c == '\U{1680}'
    || '\U{2000}' <= c <= '\U{200A}' || c == '\U{2028}' || c == '\U{2029}'
    || c == '\U{202F}' || c == '\U{205F}' || c == '\U{3000}'
  }

  predicate IsUpper(c: char)
  {
    'A' <= c <= 'Z'
  }

  /** No character of `s` is an upper-case letter. */
  predicate IsLowered(s: string)
  {
    forall i :: 0 <= i < |s| ==> !IsUpper(s[i])
  }

  /** `s` neither starts nor ends with whitespace. */
  predicate IsTrimmed(s: string)
  {
    s == [] || (!IsWhitespace(s[0]) && !IsWhitespace(s[|s| - 1]))
  }

  /** Every character of `s` is whitespace (the empty string included). */
  predicate IsBlank(s: string)
  {
    forall i :: 0 <= i < |s| ==> IsWhitespace(s[i])
  }

  /** One character lowered: an upper-case letter becomes the lower-case
      letter at the same place in the alphabet, anything else is kept. */
  function LowerChar(c: char): (d: char)
    ensures !IsUpper(d)
    ensures IsUpper(c) ==> 'a' <= d <= 'z' && d as int - 'a' as int == c as int - 'A' as int
    ensures !IsUpper(c) ==> d == c
    ensures IsWhitespace(d) <==> IsWhitespace(c)
  {
    if IsUpper(c) then (c as int - 'A' as int + 'a' as int) as char else c
  }

  /** `lowercased()`, character by character (see `LowerAt` and
      `LowerFacts`). */
  function Lower(s: string): (r: string)
    ensures |r| == |s|
  {
    if s == [] then [] else [LowerChar(s[0])] + Lower(s[1..])
  }

  /** Each character of `s` is lowered in place. */
  lemma {:induction false} LowerAt(s: string, i: nat)
    requires i < |s|
    ensures Lower(s)[i] == LowerChar(s[i])
  {
    if i > 0 {
      LowerAt(s[1..], i - 1);
    }
  }

  /** After lowering no upper-case letter is left, text that was already
      lowered is unchanged, and the whitespace stays where it was. */
  lemma LowerFacts(s: string)
    ensures IsLowered(Lower(s))
    ensures IsLowered(s) ==> Lower(s) == s
    ensures IsBlank(Lower(s)) <==> IsBlank(s)
  {
    forall i | 0 <= i < |s| ensures Lower(s)[i] == LowerChar(s[i]) {
      LowerAt(s, i);
    }
  }

  /** Every character of `s` from position `lo` up to (not including) `hi`
      is whitespace. */
  predicate BlankBetween(s: string, lo: int, hi: int)
    requires 0 <= lo && hi <= |s|
  {
    forall i :: lo <= i < hi ==> IsWhitespace(s[i])
  }

  /** The first position at or after `i` that holds no whitespace, or `|s|`
      when there is none: where the trimmed text starts. */
  function TextStart(s: string, i: nat): (a: nat)
    requires i <= |s|
    ensures i <= a <= |s| && BlankBetween(s, i, a)
    ensures a < |s| ==> !IsWhitespace(s[a])
    decreases |s| - i
  {
    if i < |s| && IsWhitespace(s[i]) then TextStart(s, i + 1) else i
  }

  /** The position just after the last non-whitespace character between
      `lo` and `j`, or `lo` when there is none: where the trimmed text ends. */
  function TextEnd(s: string, lo: nat, j: nat): (b: nat)
    requires lo <= j <= |s|
    ensures lo <= b <= j && BlankBetween(s, b, j)
    ensures b > lo ==> !IsWhitespace(s[b - 1])
    decreases j
  {
    if j > lo && IsWhitespace(s[j - 1]) then TextEnd(s, lo, j - 1) else j
  }

  /** `trimmingCharacters(in: .whitespacesAndNewlines)`: the result is the
      middle of `s` left after removing whitespace from both ends. */
  function Trim(s: string): (r: string)
    ensures exists a, b :: 0 <= a <= b <= |s| && r == s[a..b] && IsBlank(s[..a]) && IsBlank(s[b..])
    ensures IsTrimmed(r)
    ensures r == [] <==> IsBlank(s)
    ensures IsTrimmed(s) ==> r == s
    ensures forall c :: c in r ==> c in s
  {
    var a := TextStart(s, 0);
    var b := TextEnd(s, a, |s|);
    TrimmedSlice(s, a, b);
    s[a..b]
  }

  /** Cutting `s` at the first and after the last non-whitespace character
      gives a trimmed string that is empty exactly when `s` is blank. */
  lemma TrimmedSlice(s: string, a: nat, b: nat)
    requires a <= b <= |s| && BlankBetween(s, 0, a) && BlankBetween(s, b, |s|)
    requires a < |s| ==> !IsWhitespace(s[a])
    requires b > a ==> !IsWhitespace(s[b - 1])
    ensures IsBlank(s[..a]) && IsBlank(s[b..])
    ensures IsTrimmed(s[a..b])
    ensures s[a..b] == [] <==> IsBlank(s)
    ensures IsTrimmed(s) ==> s[a..b] == s
  {
    assert a < |s| ==> a < b;
    if a < b {
      assert s[a..b][0] == s[a] && s[a..b][b - a - 1] == s[b - 1];
    }
  }

  /** The input exactly as the game compares it: lowered, then trimmed. */
  function Normalize(s: string): (r: string)
    ensures IsLowered(r) && IsTrimmed(r)
    ensures r == [] <==> IsBlank(s)
  {
    LowerFacts(s);
    Trim(Lower(s))
  }

  /** Normalising twice changes nothing more than normalising once. */
  lemma NormalizeIdempotent(s: string)
    ensures Normalize(Normalize(s)) == Normalize(s)
  {
    var t := Normalize(s);
    LowerFacts(t);
  }

}
