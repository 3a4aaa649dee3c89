/**
 * The pieces of java.lang.String and java.util.UUID that the services rely on:
 * `equalsIgnoreCase` (used to read operation types and statuses) and the
 * identifier scheme `prefix + UUID.randomUUID().toString().replace("-", "")
 * .substring(0, 12).toUpperCase()` used for account numbers and transaction ids.
 */
module JavaText {

  /**
   * Character.toUpperCase on every character whose upper case is an ASCII
   * letter: a-z, and the two non-ASCII ones, dotless i (U+0131) and long s
   * (U+017F). All other characters are returned unchanged, which differs from
   * Java only on letters whose case forms are all non-ASCII.
   */
  function ToUpperChar(c: char): char {
    if 'a' <= c <= 'z' then (c as int - 32) as char
    else if c == '\U{131}' then 'I'
    else if c == '\U{17F}' then 'S'
    else c
  }

  /**
   * Character.toLowerCase on every character whose lower case is an ASCII
   * letter: A-Z, capital I with dot above (U+0130) and the Kelvin sign (U+212A).
   */
  function ToLowerChar(c: char): char {
    if 'A' <= c <= 'Z' then (c as int + 32) as char
    else if c == '\U{130}' then 'i'
    else if c == '\U{212A}' then 'k'
    else c
  }

  /** The per-character test of String.regionMatches(ignoreCase = true, ...). */
  predicate CharEqualsIgnoreCase(a: char, b: char) {
    || a == b
    || ToUpperChar(a) == ToUpperChar(b)
    || ToLowerChar(ToUpperChar(a)) == ToLowerChar(ToUpperChar(b))
  }

  /** String.equalsIgnoreCase: same length and every position matches ignoring case. */
  predicate EqualsIgnoreCase(a: string, b: string) {
    |a| == |b| && forall i :: 0 <= i < |a| ==> CharEqualsIgnoreCase(a[i], b[i])
  }

  /**
   * Against an upper-case ASCII letter, a character matches ignoring case exactly
   * when it is that letter, its lower case, or one of the four non-ASCII
   * characters that Java folds onto I, S or K.
   */
  lemma MatchesUpperLetter(letter: char, c: char)
    requires 'A' <= letter <= 'Z'
    ensures CharEqualsIgnoreCase(letter, c) <==>
      || c == letter
      || c == ToLowerChar(letter)
      || (letter == 'I' && (c == '\U{131}' || c == '\U{130}'))
      || (letter == 'S' && c == '\U{17F}')
      || (letter == 'K' && c == '\U{212A}')
  {
  }

  predicate IsLowerHexDigit(c: char) {
    '0' <= c <= '9' || 'a' <= c <= 'f'
  }

  predicate IsUpperHexDigit(c: char) {
    '0' <= c <= '9' || 'A' <= c <= 'F'
  }

  predicate IsUuidDashPosition(i: int) {
    i == 8 || i == 13 || i == 18 || i == 23
  }

  /** The text UUID.toString() produces: 32 lower-case hex digits grouped 8-4-4-4-12. */
  predicate IsUuidText(u: string) {
    && |u| == 36
    && forall i :: 0 <= i < |u| ==> if IsUuidDashPosition(i) then u[i] == '-' else IsLowerHexDigit(u[i])
  }

  /** `s.replace("-", "")`. */
  function RemoveDashes(s: string): string {
    if s == [] then [] else (if s[0] == '-' then [] else [s[0]]) + RemoveDashes(s[1..])
  }

  /** `s.toUpperCase()`, character by character. */
  function ToUpperCase(s: string): string {
    seq(|s|, i requires 0 <= i < |s| => ToUpperChar(s[i]))
  }

  lemma {:induction false} RemoveDashesAppend(a: string, b: string)
    ensures RemoveDashes(a + b) == RemoveDashes(a) + RemoveDashes(b)
  {
    if a == [] {
      assert a + b == b;
    } else {
      assert (a + b)[1..] == a[1..] + b;
      RemoveDashesAppend(a[1..], b);
    }
  }

  lemma {:induction false} RemoveDashesWithoutDashes(s: string)
    requires forall i :: 0 <= i < |s| ==> s[i] != '-'
    ensures RemoveDashes(s) == s
  {
    if s != [] {
      RemoveDashesWithoutDashes(s[1..]);
    }
  }

  /** Once the dashes are gone, the first 12 characters are the first two groups of the UUID. */
  lemma UuidLeadingDigits(u: string)
    requires IsUuidText(u)
    ensures |RemoveDashes(u)| >= 12 && RemoveDashes(u)[..12] == u[..8] + u[9..13]
  {
    assert u == u[..8] + [u[8]] + u[9..13] + u[13..];
    RemoveDashesAppend(u[..8] + [u[8]] + u[9..13], u[13..]);
    RemoveDashesAppend(u[..8] + [u[8]], u[9..13]);
    RemoveDashesAppend(u[..8], [u[8]]);
    assert RemoveDashes([u[8]]) == [];
    RemoveDashesWithoutDashes(u[..8]);
    RemoveDashesWithoutDashes(u[9..13]);
  }

  /**
   * The identifier built from `prefix` and the text of a random UUID: the
   * prefix, then the UUID's first 12 hex digits in upper case.
   */
  function GeneratedId(prefix: string, uuid: string): (id: string)
    requires IsUuidText(uuid)
    ensures |id| == |prefix| + 12 && id[..|prefix|] == prefix
    ensures id[|prefix|..] == ToUpperCase(uuid[..8] + uuid[9..13])
    ensures forall i :: |prefix| <= i < |id| ==> IsUpperHexDigit(id[i])
  {
    UuidLeadingDigits(uuid);
    assert forall i :: 0 <= i < 12 ==> IsLowerHexDigit((uuid[..8] + uuid[9..13])[i]);
    prefix + ToUpperCase(RemoveDashes(uuid)[..12])
  }
}
