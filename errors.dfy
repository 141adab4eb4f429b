/** The exceptions the parser raises, as values with the payload each one is built from. */
module ParseErrors {
  import opened Tokens
  import opened Values

  datatype ParseError =
      /** `eat` or `parse_value` found `given` at token number `index` instead of one of `expected`. */
    | UnexpectedToken(expected: seq<TokenType>, given: TokenType, index: nat)
      /** A dictionary or list with nothing kept in it: the token number and kind after its close. */
    | EmptyDictionary(index: nat, next: TokenType)
    | EmptyList(index: nat, next: TokenType)
      /** The seven numbered semantic errors. */
    | InvalidDecimal(lexeme: string)
    | EmptyKey(key: string)
    | InvalidNumber(lexeme: string)
    | ReservedWordAsKey(key: string)
    | DuplicateKey(key: string)
    | ListType(element: Value)
    | ReservedWord(text: string)
      /** A number lexeme that `float()` or `int()` refuses, or an empty one. */
    | MalformedNumber(lexeme: string)
      /** A BOOL token whose text is neither `true` nor `false`. */
    | MalformedBool(lexeme: string)
      /** The parser looked at the current token after the last one (it is `None` there). */
    | NoCurrentToken(index: nat)

  /** The errors the recovery code catches: an unexpected token of one of `kinds`. */
  predicate CaughtAt(e: ParseError, kinds: set<TokenType>) {
    e.UnexpectedToken? && e.given in kinds
  }
}
