/** Wildcard patterns as IAM reads them, Python's fnmatch, letter case and `${...}` variables. */
module Glob {

  /** `*` stands for any text, `?` for any one character, everything else for itself. */
  predicate Matches(pattern: string, text: string)
    decreases |pattern| + |text|
  {
    if pattern == "" then text == ""
    else if pattern[0] == '*' then Matches(pattern[1..], text) || (text != "" && Matches(pattern, text[1..]))
    else text != "" && (pattern[0] == '?' || pattern[0] == text[0]) && Matches(pattern[1..], text[1..])
  }

  predicate HasAny(text: string, chars: set<char>) {
    exists c <- text :: c in chars
  }

  const WILDCARDS: set<char> := {'*', '?'}
  const UNPROVABLE_CANDIDATE: set<char> := {'*', '?', '$', '{', '}'}
  const UNPROVABLE_EXISTING: set<char> := {'[', ']', '$', '{', '}'}

  /** `fnmatchcase(text, pattern)`.  Character classes are Python's own and not IAM's; what a
      pattern with a `[` matches is left to `classes`. */
  predicate Fnmatch(text: string, pattern: string, classes: (string, string) -> bool) {
    if '[' in pattern then classes(text, pattern) else Matches(pattern, text)
  }

  function LowerChar(c: char): char {
    if 'A' <= c <= 'Z' then ((c as int) - ('A' as int) + ('a' as int)) as char else c
  }

  function Lower(text: string): (lower: string)
    ensures |lower| == |text|
    ensures forall i | 0 <= i < |text| :: lower[i] == LowerChar(text[i])
  {
    if text == "" then "" else [LowerChar(text[0])] + Lower(text[1..])
  }

  lemma LowerKeeps(text: string, chars: set<char>)
    requires forall c <- chars :: !('A' <= c <= 'Z') && !('a' <= c <= 'z')
    ensures HasAny(Lower(text), chars) <==> HasAny(text, chars)
  {
    if HasAny(text, chars) {
      var i :| 0 <= i < |text| && text[i] in chars;
      assert Lower(text)[i] == text[i];
    }
    if HasAny(Lower(text), chars) {
      var i :| 0 <= i < |text| && Lower(text)[i] in chars;
      assert Lower(text)[i] == text[i];
    }
  }

  lemma {:induction false} StarMatchesAll(text: string)
    ensures Matches("*", text)
  {
    if text != "" {
      StarMatchesAll(text[1..]);
    }
  }

  /** A pattern without wildcards matches itself and nothing else. */
  lemma {:induction false} ExactMatch(pattern: string, text: string)
    requires !HasAny(pattern, WILDCARDS)
    ensures Matches(pattern, text) <==> pattern == text
  {
    if pattern != "" {
      assert pattern[0] in pattern;
      assert !HasAny(pattern[1..], WILDCARDS);
      if text != "" {
        ExactMatch(pattern[1..], text[1..]);
        assert pattern == [pattern[0]] + pattern[1..] && text == [text[0]] + text[1..];
      }
    }
  }

  // ---------------------------------------------------------------- variables

  /** Where the first `}` is. */
  function CloseAt(text: string): (n: nat)
    ensures n <= |text|
    ensures n < |text| ==> text[n] == '}'
  {
    if text == "" || text[0] == '}' then 0 else 1 + CloseAt(text[1..])
  }

  /** Every `${name}` replaced by its value; a `${` that is never closed stays as it is. */
  function Instantiate(vars: string -> string, text: string): string {
    if text == "" then ""
    else if |text| >= 2 && text[0] == '$' && text[1] == '{' && CloseAt(text[2..]) < |text| - 2 then
      var n := CloseAt(text[2..]);
      vars(text[2..][..n]) + Instantiate(vars, text[2..][n + 1..])
    else [text[0]] + Instantiate(vars, text[1..])
  }

  predicate HasPlaceholder(text: string) {
    exists i | 0 <= i < |text| - 1 :: text[i] == '$' && text[i + 1] == '{'
  }

  lemma {:induction false} NoPlaceholderNoChange(vars: string -> string, text: string)
    requires !HasPlaceholder(text)
    ensures Instantiate(vars, text) == text
  {
    if text != "" {
      assert |text| >= 2 ==> !(text[0] == '$' && text[0 + 1] == '{');
      forall i | 0 <= i < |text[1..]| - 1
        ensures !(text[1..][i] == '$' && text[1..][i + 1] == '{')
      {
        assert !(text[i + 1] == '$' && text[i + 1 + 1] == '{');
      }
      NoPlaceholderNoChange(vars, text[1..]);
    }
  }
}
