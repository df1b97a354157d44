/** Characters of a C string: reading one past the end yields NUL. */
module Chars {

  const NUL: char := '\0'

  /** The byte at position i, NUL at or past the end. */
  function At(s: string, i: nat): char {
    if i < |s| then s[i] else NUL
  }

  predicate IsDigit(c: char) { '0' <= c <= '9' }

  predicate IsAlpha(c: char) { 'a' <= c <= 'z' || 'A' <= c <= 'Z' }
}
