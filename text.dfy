/**
 * The string operations the event search uses: lower-casing (`toLowerCase`)
 * and substring search (`includes`).
 */
module Text {

  /** Lower-casing of one character, restricted to the ASCII letters. */
  function LowerChar(c: char): (r: char)
    ensures 'A' <= c <= 'Z' ==> r as int == c as int + 32
    ensures !('A' <= c <= 'Z') ==> r == c
    ensures !('A' <= r <= 'Z')
  {
    if 'A' <= c <= 'Z' then (c as int + 32) as char else c
  }

  /** `s.toLowerCase()`, character by character. */
  function Lower(s: string): (r: string)
    ensures |r| == |s|
    ensures forall i :: 0 <= i < |s| ==> r[i] == LowerChar(s[i])
  {
    seq(|s|, i requires 0 <= i < |s| => LowerChar(s[i]))
  }

  /** Lower-casing twice is lower-casing once. */
  lemma LowerIdempotent(s: string)
    ensures Lower(Lower(s)) == Lower(s)
  {
    assert forall i :: 0 <= i < |s| ==> Lower(Lower(s))[i] == Lower(s)[i];
  }

  /** `pattern` occurs in `text` starting at index `i`. */
  predicate OccursAt(text: string, pattern: string, i: int) {
    0 <= i && i + |pattern| <= |text| && text[i..i + |pattern|] == pattern
  }

  /** `text.includes(pattern)`: some occurrence of `pattern` lies inside `text`. */
  function Contains(text: string, pattern: string): (b: bool)
    ensures b <==> exists i :: OccursAt(text, pattern, i)
    decreases |text|
  {
    if |pattern| <= |text| && text[..|pattern|] == pattern then
      assert OccursAt(text, pattern, 0);
      true
    else if text == [] then
      false
    else
      var rest := Contains(text[1..], pattern);
      ShiftOccurrence(text, pattern);
      rest
  }

  /** An occurrence in `text[1..]` is an occurrence in `text` one place later. */
  lemma ShiftOccurrence(text: string, pattern: string)
    requires text != []
    requires !OccursAt(text, pattern, 0)
    ensures (exists i :: OccursAt(text[1..], pattern, i)) <==> (exists i :: OccursAt(text, pattern, i))
  {
    forall i | OccursAt(text[1..], pattern, i)
      ensures OccursAt(text, pattern, i + 1)
    {
      assert text[i + 1..i + 1 + |pattern|] == text[1..][i..i + |pattern|];
    }
    forall i | OccursAt(text, pattern, i)
      ensures OccursAt(text[1..], pattern, i - 1)
    {
      assert text[1..][i - 1..i - 1 + |pattern|] == text[i..i + |pattern|];
    }
  }

  /**
   * A pattern of two or more characters whose first two characters never
   * appear side by side in `text` does not occur in `text`.
   */
  lemma NotContainedByPair(text: string, pattern: string)
    requires |pattern| >= 2
    requires forall i :: 0 <= i < |text| - 1 ==> !(text[i] == pattern[0] && text[i + 1] == pattern[1])
    ensures !Contains(text, pattern)
  {
    forall i | 0 <= i && i + |pattern| <= |text|
      ensures !OccursAt(text, pattern, i)
    {
      var window := text[i..i + |pattern|];
      assert window[0] == text[i] && window[1] == text[i + 1];
    }
  }

  /**
   * The same, ignoring case: when no two neighbouring characters of `text`
   * lower-case to the first two characters of `pattern`, the lower-cased
   * pattern does not occur in the lower-cased text.
   */
  lemma LowerNotContainedByPair(text: string, pattern: string)
    requires |pattern| >= 2
    requires forall i :: 0 <= i < |text| - 1 ==>
      !(LowerChar(text[i]) == LowerChar(pattern[0]) && LowerChar(text[i + 1]) == LowerChar(pattern[1]))
    ensures !Contains(Lower(text), Lower(pattern))
  {
    NotContainedByPair(Lower(text), Lower(pattern));
  }

  /** The empty string is contained in every string, as `"abc".includes("")` is true. */
  lemma ContainsEmpty(text: string)
    ensures Contains(text, "")
  {
    assert OccursAt(text, "", 0);
  }
}
