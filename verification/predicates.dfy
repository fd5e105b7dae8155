/** The shared string predicate that tells whether a name consists of
    special characters only. */
module Predicates {

  /** The characters that count as special. */
  const SpecialCharacters: string := "-/@#$%^&_+=()"

  predicate IsSpecial(c: char) {
    c in SpecialCharacters
  }

  /** `SPECIAL_CHARS_ONLY`: every character of the string is special; the
      empty string qualifies. */
  function SpecialCharsOnly(s: string): (r: bool)
    ensures r <==> forall i :: 0 <= i < |s| ==> IsSpecial(s[i])
    decreases |s|
  {
    if |s| == 0 then true else IsSpecial(s[0]) && SpecialCharsOnly(s[1..])
  }

  /** A concatenation qualifies exactly when both parts do. */
  lemma {:induction false} SpecialCharsOnlyConcat(a: string, b: string)
    ensures SpecialCharsOnly(a + b) <==> SpecialCharsOnly(a) && SpecialCharsOnly(b)
  {
    assert forall i :: 0 <= i < |a| ==> (a + b)[i] == a[i];
    assert forall i :: 0 <= i < |b| ==> (a + b)[|a| + i] == b[i];
  }

  predicate IsOrdinary(c: char) {
    'a' <= c <= 'z' || 'A' <= c <= 'Z' || '0' <= c <= '9' || c == ' '
  }

  /** Letters, digits and the space are never special, so a string holding
      one of them does not qualify. */
  lemma OrdinaryCharacterDisqualifies(s: string, i: int)
    requires 0 <= i < |s| && IsOrdinary(s[i])
    ensures !IsSpecial(s[i])
    ensures !SpecialCharsOnly(s)
  {
  }

  lemma SpecialNamesQualify()
    ensures SpecialCharsOnly("") && SpecialCharsOnly("--") && SpecialCharsOnly("(@#)")
  {
    assert SpecialCharacters[0] == '-' && SpecialCharacters[2] == '@' && SpecialCharacters[3] == '#';
    assert SpecialCharacters[11] == '(' && SpecialCharacters[12] == ')';
  }

  lemma OrdinaryNamesDoNotQualify()
    ensures !SpecialCharsOnly("a-") && !SpecialCharsOnly("my project")
  {
    OrdinaryCharacterDisqualifies("a-", 0);
    OrdinaryCharacterDisqualifies("my project", 2);
  }
}
