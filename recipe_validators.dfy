/**
 * The name check on tag and ingredient names (the same validator is also
 * declared on the recipe's author key): a full match of the pattern
 * `[-А-Яа-яA-Za-z0-9\s]+$`.
 */
module RecipeValidators {
  import opened Base
  import Text

  const NonpunctuationMessage := "Символы $%^&#:;! запрещены для использования!"

  /** One character of the class `[-А-Яа-яA-Za-z0-9\s]`. */
  predicate InNameClass(c: char) {
    || c == '-'
    || Text.IsCyrillicBasicUpper(c) || Text.IsCyrillicBasicLower(c)
    || Text.IsAsciiUpper(c) || Text.IsAsciiLower(c)
    || Text.IsDigit(c)
    || Text.IsSpace(c)
  }

  /** What the validator promises: a non-empty string of class characters only. */
  predicate IsAllowedName(s: string) {
    |s| > 0 && forall i :: 0 <= i < |s| ==> InNameClass(s[i])
  }

  /** The length of the longest run of class characters at the start of `s` (the greedy `+`). */
  function ClassRun(s: string): (n: nat)
    ensures n <= |s|
    ensures forall i :: 0 <= i < n ==> InNameClass(s[i])
    ensures n < |s| ==> !InNameClass(s[n])
  {
    if s == [] || !InNameClass(s[0]) then 0 else 1 + ClassRun(s[1..])
  }

  /** The anchor `$`: at the end of `s`, or just before a final newline. */
  predicate AtEnd(s: string, k: nat) {
    k == |s| || (k + 1 == |s| && s[k] == '\n')
  }

  /**
   * `re.fullmatch` of the pattern: the `+` may stop after any k of the
   * characters of the run (k >= 1, backtracking), `$` must hold at k, and a
   * full match must end at the end of the string.
   */
  predicate FullMatch(s: string) {
    exists k :: 1 <= k <= ClassRun(s) && AtEnd(s, k) && k == |s|
  }

  /** The regular-expression match accepts exactly the strings the validator promises to accept. */
  lemma FullMatchIff(s: string)
    ensures FullMatch(s) <==> IsAllowedName(s)
  {
    var n := ClassRun(s);
    if IsAllowedName(s) {
      assert n == |s|;
      assert 1 <= n <= ClassRun(s) && AtEnd(s, n) && n == |s|;
    }
  }

  /** `validate_for_nonpunctuation_marks`: returns, or raises with the fixed message. */
  function ValidateForNonpunctuationMarks(value: string): (r: Outcome<string>)
    ensures r.Pass? <==> IsAllowedName(value)
    ensures r.Fail? ==> r.error == NonpunctuationMessage
  {
    FullMatchIff(value);
    if FullMatch(value) then Pass else Fail(NonpunctuationMessage)
  }

  /** The empty string is rejected: `+` needs at least one character. */
  lemma EmptyRejected()
    ensures ValidateForNonpunctuationMarks("") == Fail(NonpunctuationMessage)
  {
  }

  /** Any string holding a character outside the class is rejected, wherever that character is. */
  lemma OutsiderRejected(s: string, i: nat)
    requires i < |s| && !InNameClass(s[i])
    ensures ValidateForNonpunctuationMarks(s).Fail?
  {
  }

  /** The punctuation named in the message, and Ё/ё (outside А-Я and а-я), are outside the class. */
  lemma NamedCharactersOutside()
    ensures forall c :: c in "$%^&#:;!" ==> !InNameClass(c)
    ensures !InNameClass('Ё') && !InNameClass('ё')
  {
  }

  /** Accepted names are closed under concatenation. */
  lemma {:induction false} ConcatAccepted(a: string, b: string)
    requires ValidateForNonpunctuationMarks(a).Pass? && ValidateForNonpunctuationMarks(b).Pass?
    ensures ValidateForNonpunctuationMarks(a + b).Pass?
  {
    var ab := a + b;
    forall i | 0 <= i < |ab| ensures InNameClass(ab[i]) {
      if i < |a| { assert ab[i] == a[i]; } else { assert ab[i] == b[i - |a|]; }
    }
  }
}
