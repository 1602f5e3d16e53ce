/**
 * The `validateInput` callback of the file-name prompt: a name is accepted when
 * it is non-empty and matches `/^[A-Za-z_]\w*$/`, in which (without the `u` flag)
 * `\w` is the ASCII class `[A-Za-z0-9_]`.
 */
module NameValidation {
  import opened Wrappers
  import opened DigitRuns

  predicate IsAsciiLetter(c: char)
  {
    'A' <= c <= 'Z' || 'a' <= c <= 'z'
  }

  /** `[A-Za-z_]`: the character class of the first position. */
  predicate IsIdentifierStart(c: char)
  {
    IsAsciiLetter(c) || c == '_'
  }

  /** `\w`. */
  predicate IsWordChar(c: char)
  {
    IsAsciiLetter(c) || IsDigit(c) || c == '_'
  }

  /** The pattern `\w*$` matched against the rest of the input, one character at a time. */
  function MatchesWordStar(w: string): bool
  {
    w == [] || (IsWordChar(w[0]) && MatchesWordStar(w[1..]))
  }

  /** The pattern `^[A-Za-z_]\w*$` matched against the whole input. */
  function MatchesIdentifierPattern(v: string): bool
  {
    |v| > 0 && IsIdentifierStart(v[0]) && MatchesWordStar(v[1..])
  }

  /** `\w*$` matches exactly the strings made only of word characters. */
  lemma {:induction false} MatchesWordStarIff(w: string)
    ensures MatchesWordStar(w) <==> forall k :: 0 <= k < |w| ==> IsWordChar(w[k])
  {
    if w != [] {
      MatchesWordStarIff(w[1..]);
      assert forall k :: 1 <= k < |w| ==> w[k] == w[1..][k - 1];
    }
  }

  /** The message the prompt shows under a rejected name. */
  const InvalidNameMessage: string := "文件名需为合法的 C# 标识符样式"

  /** The identifier-style shape of a name, stated character by character. */
  predicate IsIdentifierStyle(v: string)
  {
    && |v| > 0
    && IsIdentifierStart(v[0])
    && forall k :: 1 <= k < |v| ==> IsWordChar(v[k])
  }

  /**
   * `validateInput(v)`: the message for an empty (falsy) or non-matching name, `null` (here `None`)
   * for an accepted one; a name is accepted exactly when it has the identifier-style shape.
   */
  function ValidateInput(v: string): (r: Option<string>)
    ensures r.None? <==> IsIdentifierStyle(v)
    ensures r.Some? ==> r.value == InvalidNameMessage
  {
    if |v| == 0 then Some(InvalidNameMessage)
    else
      MatchesWordStarIff(v[1..]);
      assert forall k :: 1 <= k < |v| ==> v[k] == v[1..][k - 1];
      if !MatchesIdentifierPattern(v) then Some(InvalidNameMessage) else None
  }

  /** An accepted name never starts with a digit, and every character is a letter, a digit or `_`. */
  lemma AcceptedNameShape(v: string)
    requires ValidateInput(v).None?
    ensures |v| > 0 && !IsDigit(v[0])
    ensures forall k :: 0 <= k < |v| ==> IsWordChar(v[k])
  {
  }
}
