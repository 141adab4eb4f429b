/** Character classes shared by the scanner, the token-stream reader and the parser.
    Python's `str.isspace` and `str.isdigit` are Unicode-aware; here they are their ASCII part. */
module Chars {

  /** ASCII characters for which Python's `str.isspace` is true: space, TAB..CR, and the
      four separator controls FS, GS, RS, US. */
  predicate IsSpace(c: char) {
    c == ' ' || ('\t' <= c <= '\r') || ('\U{001C}' <= c <= '\U{001F}')
  }

  predicate IsDigit(c: char) {
    '0' <= c <= '9'
  }

  /** True when every character of `s` is whitespace; together with `s == ""` this is
      the parser's "empty key" test `key.isspace() or key == ''`. */
  predicate AllSpace(s: string) {
    forall i :: 0 <= i < |s| ==> IsSpace(s[i])
  }

  /** The words that may not be used as keys or as quoted string values. */
  predicate IsReserved(s: string) {
    s == "true" || s == "false" || s == "null"
  }

  /** `n` blanks: Python's `" " * n`. */
  function Spaces(n: nat): (r: string)
    ensures |r| == n
    ensures forall i :: 0 <= i < n ==> r[i] == ' '
  {
    if n == 0 then "" else Spaces(n - 1) + " "
  }

  /** Python's `str.lstrip()`: drop leading whitespace. */
  function LStrip(s: string): (r: string)
    ensures |r| <= |s| && r == s[|s| - |r|..]
    ensures AllSpace(s[..|s| - |r|])
    ensures r == [] || !IsSpace(r[0])
  {
    if s != [] && IsSpace(s[0]) then LStrip(s[1..]) else s
  }
}
