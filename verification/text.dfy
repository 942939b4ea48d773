/** The few string operations the storefront relies on. */
module Text {

  /** `String.prototype.startsWith`. */
  predicate StartsWith(s: string, prefix: string) {
    |prefix| <= |s| && s[..|prefix|] == prefix
  }

  /** A character the regular expression class `\d` matches (ASCII digits only). */
  predicate IsDigit(c: char) {
    '0' <= c <= '9'
  }

  /** `String.prototype.toLowerCase` is locale- and Unicode-dependent; the model takes it
      as a parameter of this type and assumes nothing about it. */
  type Lowering = string -> string
}
