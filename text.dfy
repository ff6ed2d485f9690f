/** Case-insensitive substring search: the `ILIKE '%pattern%'` test, over ASCII letters. */
module Text {

  /** ASCII lower case; every other character is left alone. */
  function Lower(c: char): char {
    if 'A' <= c <= 'Z' then (c as int - 'A' as int + 'a' as int) as char else c
  }

  function LowerString(s: string): string {
    seq(|s|, i requires 0 <= i < |s| => Lower(s[i]))
  }

  predicate OccursAt(text: string, pattern: string, i: int) {
    0 <= i && i + |pattern| <= |text| && text[i..i + |pattern|] == pattern
  }

  /** `pattern` occurs somewhere in `text` once both are lower-cased. */
  predicate ContainsIgnoringCase(text: string, pattern: string) {
    exists i :: 0 <= i <= |text| - |pattern| && OccursAt(LowerString(text), LowerString(pattern), i)
  }

  /** The empty pattern (`ILIKE '%%'`) matches every text. */
  lemma EmptyPatternMatches(text: string)
    ensures ContainsIgnoringCase(text, "")
  {
    assert OccursAt(LowerString(text), LowerString(""), 0);
  }

  /** Every text matches itself, and so every row matches its own category. */
  lemma TextMatchesItself(text: string)
    ensures ContainsIgnoringCase(text, text)
  {
    assert LowerString(text)[0..|text|] == LowerString(text);
    assert OccursAt(LowerString(text), LowerString(text), 0);
  }

  /** Letter case on either side never decides a match. */
  lemma CaseIsIgnored(text: string, pattern: string, text': string, pattern': string)
    requires LowerString(text) == LowerString(text') && LowerString(pattern) == LowerString(pattern')
    ensures ContainsIgnoringCase(text, pattern) <==> ContainsIgnoringCase(text', pattern')
  {
    assert |text| == |text'| && |pattern| == |pattern'|;
  }
}
