/** Tokens as the scanner produces them and as the token-stream format prints them. */
module Tokens {

  /** The token kinds of the scanner. A token read back from a hand-written token stream may
      carry any type name at all (Python keeps the type as a plain string); such a name that is
      not one of the twelve is `Other(name)`. */
  datatype TokenType =
    | STR | NUM | BOOL | NULL | EOF
    | LBRACKET | RBRACKET | COMMA | COLON | LBRACE | RBRACE | SEMICOLON
    | Other(name: string)

  /** A token: its kind and the exact lexeme (the text between the quotes for strings). */
  datatype Token = Token(kind: TokenType, value: string)

  /** The type name Python stores in `Token.type`. */
  function TypeName(k: TokenType): string {
    match k
    case STR => "STR"
    case NUM => "NUM"
    case BOOL => "BOOL"
    case NULL => "NULL"
    case EOF => "EOF"
    case LBRACKET => "LBRACKET"
    case RBRACKET => "RBRACKET"
    case COMMA => "COMMA"
    case COLON => "COLON"
    case LBRACE => "LBRACE"
    case RBRACE => "RBRACE"
    case SEMICOLON => "SEMICOLON"
    case Other(n) => n
  }

  /** The twelve kinds of the scanner, in the order the source declares them. */
  const Named: seq<TokenType> :=
    [STR, NUM, BOOL, NULL, EOF, LBRACKET, RBRACKET, COMMA, COLON, LBRACE, RBRACE, SEMICOLON]

  /** A kind is known when it is one of the twelve or its name is not one of theirs; only
      such kinds come out of `KindNamed`. */
  predicate IsKnown(k: TokenType) {
    !k.Other? || forall i :: 0 <= i < |Named| ==> TypeName(Named[i]) != k.name
  }

  /** The first kind of `kinds` whose type name is `name`, or `Other(name)`. */
  function FindKind(kinds: seq<TokenType>, name: string): (k: TokenType)
    requires forall i :: 0 <= i < |kinds| ==> !kinds[i].Other?
    ensures TypeName(k) == name
    ensures k.Other? <==> forall i :: 0 <= i < |kinds| ==> TypeName(kinds[i]) != name
    ensures !k.Other? ==> k in kinds
  {
    if kinds == [] then Other(name)
    else if TypeName(kinds[0]) == name then kinds[0]
    else FindKind(kinds[1..], name)
  }

  /** The kind whose type name is `name`: Python keeps the name itself as the token's type,
      so a name of one of the twelve kinds is that kind and any other name is `Other`. */
  function KindNamed(name: string): (k: TokenType)
    ensures TypeName(k) == name && IsKnown(k)
  {
    FindKind(Named, name)
  }

  /** Reading a type name back gives the kind it was printed from. */
  lemma KindNamedTypeName(k: TokenType)
    requires IsKnown(k)
    ensures KindNamed(TypeName(k)) == k
  {
    if !k.Other? {
      assert Named[Ordinal(k)] == k;
      TypeNameInjective(KindNamed(TypeName(k)), k);
    }
  }

  /** Where a kind of the scanner stands in `Named`. */
  function Ordinal(k: TokenType): (i: nat)
    requires !k.Other?
    ensures i < |Named| && Named[i] == k
  {
    match k
    case STR => 0
    case NUM => 1
    case BOOL => 2
    case NULL => 3
    case EOF => 4
    case LBRACKET => 5
    case RBRACKET => 6
    case COMMA => 7
    case COLON => 8
    case LBRACE => 9
    case RBRACE => 10
    case SEMICOLON => 11
  }

  /** The twelve kinds have twelve different names. */
  lemma TypeNameInjective(a: TokenType, b: TokenType)
    requires !a.Other? && !b.Other? && TypeName(a) == TypeName(b)
    ensures a == b
  {
  }

  /** Kinds whose printed form carries the type name. */
  predicate PrintsType(k: TokenType) {
    k == NUM || k == STR || k == BOOL
  }

  /** `Token.__repr__`: `<TYPE, value>` for numbers, strings and booleans, `<value>` otherwise. */
  function Repr(t: Token): (r: string)
    ensures |r| >= 2 && r[0] == '<' && r[|r| - 1] == '>'
  {
    if PrintsType(t.kind) then "<" + TypeName(t.kind) + ", " + t.value + ">"
    else "<" + t.value + ">"
  }
}
