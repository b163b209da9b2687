/** Characters of C strings. */
module Chars {
  /** The character at `i` of a C string of length |s|: the terminator when `i` is just past the end. */
  function At(s: string, i: nat): char {
    if i < |s| then s[i] else '\0'
  }

  /** White space, as the scanner, the XPath compiler and the match patterns know it. */
  predicate IsSpace(c: char) {
    c == ' ' || c == '\t' || c == '\n' || c == '\r'
  }
}
