/**
 * `util::to_lower`: a character-wise copy of a string through `std::tolower` in the
 * default "C" locale, where only 'A' to 'Z' have lowercase forms.
 */
module StringUtil {

  predicate IsUpper(c: char)
  {
    'A' <= c <= 'Z'
  }

  /** `std::tolower` in the "C" locale. */
  function LowerChar(c: char): char
  {
    if IsUpper(c) then (c as int - 'A' as int + 'a' as int) as char else c
  }

  /** The input is a `const &`, so the result is a new string and the argument is untouched. */
  function ToLower(s: string): (r: string)
    ensures |r| == |s|
    ensures forall i :: 0 <= i < |s| ==> r[i] == LowerChar(s[i])
  {
    if s == [] then [] else [LowerChar(s[0])] + ToLower(s[1..])
  }

  /**
   * Each uppercase ASCII letter becomes the letter 32 code points later, from 'a' to 'z';
   * every other character is copied unchanged.
   */
  lemma LowerCharCases(c: char)
    ensures IsUpper(c) ==> LowerChar(c) as int == c as int + 32 && 'a' <= LowerChar(c) <= 'z'
    ensures !IsUpper(c) ==> LowerChar(c) == c
    ensures !IsUpper(LowerChar(c))
  {
  }

  /** The result has no uppercase ASCII letter, and a string without one is its own lowercase form. */
  lemma {:induction false} ToLowerRemovesUpper(s: string)
    ensures forall i :: 0 <= i < |s| ==> !IsUpper(ToLower(s)[i])
    ensures (forall i :: 0 <= i < |s| ==> !IsUpper(s[i])) ==> ToLower(s) == s
  {
    forall i | 0 <= i < |s|
      ensures !IsUpper(ToLower(s)[i])
    {
      LowerCharCases(s[i]);
    }
    if forall i :: 0 <= i < |s| ==> !IsUpper(s[i]) {
      forall i | 0 <= i < |s|
        ensures ToLower(s)[i] == s[i]
      {
        LowerCharCases(s[i]);
      }
    }
  }

  /** `to_lower` is idempotent. */
  lemma ToLowerIdempotent(s: string)
    ensures ToLower(ToLower(s)) == ToLower(s)
  {
    ToLowerRemovesUpper(s);
    ToLowerRemovesUpper(ToLower(s));
  }

  /** `to_lower` distributes over concatenation, as a character-wise map does. */
  lemma ToLowerConcat(s: string, t: string)
    ensures ToLower(s + t) == ToLower(s) + ToLower(t)
  {
    assert forall i :: 0 <= i < |s| ==> (s + t)[i] == s[i];
    assert forall i :: |s| <= i < |s| + |t| ==> (s + t)[i] == t[i - |s|];
  }
}
