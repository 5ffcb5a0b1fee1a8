/** The character classes of the source's regular expressions. */
module Characters {

  /** \s of JavaScript: the white space and line terminators of ECMAScript. */
  predicate IsSpace(c: char) {
    || c == ' ' || '\t' <= c <= '\r'
    || c == '\U{00A0}' || c == '\U{1680}' || '\U{2000}' <= c <= '\U{200A}'
    || c == '\U{2028}' || c == '\U{2029}' || c == '\U{202F}' || c == '\U{205F}'
    || c == '\U{3000}' || c == '\U{FEFF}'
  }

  /** \d */
  predicate IsDigit(c: char) {
    '0' <= c <= '9'
  }

  /** [ \t] */
  predicate IsBlank(c: char) {
    c == ' ' || c == '\t'
  }

  /** s.slice(from, to) of JavaScript, for indices that are not negative. */
  function Slice(s: string, from: nat, to: nat): string {
    var hi := if to < |s| then to else |s|;
    if from < hi then s[from..hi] else ""
  }
}
