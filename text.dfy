/**
 * An explicit character model for the string operations the source relies on:
 * `str.lower`, `str.capitalize` and the regular-expression class `\s`.
 *
 * Letter case is modelled for ASCII Latin and for the basic Cyrillic block
 * (U+0400..U+045F); every other character is case-less here. Whitespace is
 * the full set of characters for which Python's `str.isspace` holds, which is
 * what `\s` matches in a `str` pattern.
 */
module Text {

  predicate IsAsciiUpper(c: char) { 'A' <= c <= 'Z' }
  predicate IsAsciiLower(c: char) { 'a' <= c <= 'z' }

  /** А..Я (U+0410..U+042F). */
  predicate IsCyrillicBasicUpper(c: char) { 'А' <= c <= 'Я' }
  /** а..я (U+0430..U+044F). */
  predicate IsCyrillicBasicLower(c: char) { 'а' <= c <= 'я' }
  /** Ѐ..Џ (U+0400..U+040F), which holds Ё (U+0401). */
  predicate IsCyrillicExtraUpper(c: char) { '\U{0400}' <= c <= '\U{040F}' }
  /** ѐ..џ (U+0450..U+045F), which holds ё (U+0451). */
  predicate IsCyrillicExtraLower(c: char) { '\U{0450}' <= c <= '\U{045F}' }

  predicate IsUpper(c: char) {
    IsAsciiUpper(c) || IsCyrillicBasicUpper(c) || IsCyrillicExtraUpper(c)
  }

  predicate IsLower(c: char) {
    IsAsciiLower(c) || IsCyrillicBasicLower(c) || IsCyrillicExtraLower(c)
  }

  /** `c.lower()` for one character. */
  function Lower(c: char): (r: char)
    ensures !IsUpper(r)
    ensures IsUpper(c) ==> IsLower(r)
    ensures !IsUpper(c) ==> r == c
  {
    if IsAsciiUpper(c) || IsCyrillicBasicUpper(c) then (c as int + 32) as char
    else if IsCyrillicExtraUpper(c) then (c as int + 80) as char
    else c
  }

  /** `c.upper()` for one character (which is also its title case in this model). */
  function Upper(c: char): (r: char)
    ensures !IsLower(r)
    ensures IsLower(c) ==> IsUpper(r)
    ensures !IsLower(c) ==> r == c
  {
    if IsAsciiLower(c) || IsCyrillicBasicLower(c) then (c as int - 32) as char
    else if IsCyrillicExtraLower(c) then (c as int - 80) as char
    else c
  }

  /** `s.lower()`. */
  function LowerString(s: string): (r: string)
    ensures |r| == |s|
    ensures forall i :: 0 <= i < |s| ==> r[i] == Lower(s[i])
  {
    seq(|s|, i requires 0 <= i < |s| => Lower(s[i]))
  }

  /** `s.capitalize()`: the first character in upper case, the rest in lower case. */
  function Capitalize(s: string): (r: string)
    ensures |r| == |s|
    ensures |s| > 0 ==> !IsLower(r[0])
    ensures forall i :: 1 <= i < |r| ==> !IsUpper(r[i])
    ensures forall i :: 0 <= i < |s| ==> Lower(r[i]) == Lower(s[i])
  {
    if s == [] then [] else [Upper(s[0])] + LowerString(s[1..])
  }

  /** Capitalising is idempotent. */
  lemma CapitalizeIdempotent(s: string)
    ensures Capitalize(Capitalize(s)) == Capitalize(s)
  {
    if s != [] {
      var c := Capitalize(s);
      assert c[1..] == LowerString(s[1..]);
      assert LowerString(c[1..]) == c[1..];
    }
  }

  /** Characters for which Python's `str.isspace()` holds; `\s` matches exactly these. */
  predicate IsSpace(c: char) {
    || '\t' <= c <= '\r'                  // \t \n \x0b \x0c \r
    || '\U{001C}' <= c <= '\U{001F}'      // file, group, record and unit separators
    || c == ' ' || c == '\U{0085}' || c == '\U{00A0}' || c == '\U{1680}'
    || '\U{2000}' <= c <= '\U{200A}'
    || c == '\U{2028}' || c == '\U{2029}' || c == '\U{202F}' || c == '\U{205F}' || c == '\U{3000}'
  }

  /** An ASCII decimal digit 0..9. */
  predicate IsDigit(c: char) { '0' <= c <= '9' }

  /** `str(n)` for an integer. */
  function IntToString(n: int): (r: string)
    ensures |r| > 0
    ensures n >= 0 ==> forall i :: 0 <= i < |r| ==> IsDigit(r[i])
    ensures n < 0 ==> r[0] == '-' && forall i :: 1 <= i < |r| ==> IsDigit(r[i])
  {
    if n < 0 then "-" + NatToString(-n) else NatToString(n)
  }

  function NatToString(n: nat): (r: string)
    ensures |r| > 0
    ensures forall i :: 0 <= i < |r| ==> IsDigit(r[i])
    decreases n
  {
    var d := ['0' + (n % 10) as char];
    if n < 10 then d else NatToString(n / 10) + d
  }
}
