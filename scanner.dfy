/** The scanner of JsonScanner.py: a cursor over the input and one small automaton per kind
    of literal, each proved to compute what `ScannerSpec` says it does. */
module JsonScanner {
  import opened Wrappers
  import opened Chars
  import opened Tokens
  import opened ScannerSpec
  import opened ScannerLemmas

  /** A recognizer's outcome `r`, with the cursor left at `pos`, is the one `spec` describes. */
  predicate Agrees(r: Result<Token, LexError>, pos: nat, spec: Result<Lexed, LexError>) {
    match r
    case Ok(t) => spec == Ok(Lexed(t, pos))
    case Err(e) => spec == Err(e)
  }

  /** One step of `tokenize`'s loop: the token just scanned, then the rest of the scan. */
  lemma TokenizeStep(tokens: seq<Token>, s: string, p: nat, t: Token, q: nat)
    requires p <= |s| && NextToken(s, p) == Ok(Lexed(t, q))
    ensures t.kind == EOF ==> Prepend(tokens, TokenizeFrom(s, p)) == Ok(tokens + [t])
    ensures t.kind != EOF ==> q <= |s| && Prepend(tokens, TokenizeFrom(s, p)) == Prepend(tokens + [t], TokenizeFrom(s, q))
  {
    if t.kind == EOF {
      assert TokenizeFrom(s, p) == Ok([t]);
    } else {
      assert p < |s| && q <= |s|;
      var rest := TokenizeFrom(s, q);
      if rest.Ok? {
        assert TokenizeFrom(s, p) == Ok([t] + rest.value);
        assert tokens + ([t] + rest.value) == tokens + [t] + rest.value;
      } else {
        assert TokenizeFrom(s, p) == Err(rest.error);
      }
    }
  }

  /** The cursor moves past one character of a run: the text read grows by that character and
      the run still ends where it did. */
  lemma RunAdvance(s: string, a: nat, i: nat, ok: char -> bool)
    requires a <= i < |s| && ok(s[i])
    ensures s[a..i + 1] == s[a..i] + [s[i]]
    ensures RunEnd(s, i, ok) == RunEnd(s, i + 1, ok)
  {
  }

  /** The boolean recognizer reads one more letter that keeps its automaton alive. */
  lemma BoolAdvance(s: string, p: nat, i: nat)
    requires p <= i < |s| && BoolAfter(s[p..i]) != BReject && IsBoolLetter(s[i])
    requires BoolStep(BoolAfter(s[p..i]), s[i]) != BReject
    ensures s[p..i + 1] == s[p..i] + [s[i]]
    ensures BoolAfter(s[p..i + 1]) == BoolStep(BoolAfter(s[p..i]), s[i])
    ensures BoolEnd(s, p, i) == BoolEnd(s, p, i + 1)
  {
    assert s[p..i + 1] == s[p..i] + [s[i]];
    BoolAfterSnoc(s[p..i], s[i]);
  }

  /** Where the boolean recognizer stops, `ScanBool` has its outcome. */
  lemma ScanBoolEnds(s: string, p: nat, e: nat)
    requires p < |s| && (s[p] == 't' || s[p] == 'f') && p <= e <= |s|
    requires BoolAfter(s[p..e]) != BReject && BoolAfter(s[p..p]) != BReject
    requires BoolEnd(s, p, p) == BoolEnd(s, p, e)
    requires e == |s| || !IsBoolLetter(s[e]) || BoolStep(BoolAfter(s[p..e]), s[e]) == BReject
    ensures ScanBool(s, p) == if (e < |s| && IsBoolLetter(s[e])) || BoolAfter(s[p..e]) != BE
      then Err(LexerError(e, s[p..e])) else Ok(Lexed(Token(BOOL, s[p..e]), e))
  {
    assert BoolEnd(s, p, e) == e;
  }

  /** The null recognizer reads one more letter. */
  lemma NullAdvance(s: string, p: nat, i: nat)
    requires p <= i < |s| && IsNullLetter(s[i])
    ensures s[p..i + 1] == s[p..i] + [s[i]]
    ensures NullAfter(s[p..i + 1]) == NullStep(NullAfter(s[p..i]), s[i])
    ensures RunEnd(s, i, IsNullLetter) == RunEnd(s, i + 1, IsNullLetter)
  {
    assert s[p..i + 1][..i - p] == s[p..i];
  }

  /** The states of the string automaton. */
  datatype StringState = SStart | SString | SEnd | SRejected

  class Lexer {
    var input: string
    var position: nat
    var currentChar: Option<char>

    /** `current_char` is the character under the cursor, or `None` past the end. */
    ghost predicate Valid()
      reads this
    {
      position <= |input| && currentChar == CharAt(input, position)
    }

    constructor ()
      ensures Valid() && input == "" && position == 0
    {
      input, position, currentChar := "", 0, None;
    }

    method Advance()
      requires Valid() && position < |input|
      modifies this
      ensures Valid() && input == old(input) && position == old(position) + 1
    {
      position := position + 1;
      if position < |input| {
        currentChar := Some(input[position]);
      } else {
        currentChar := None;
      }
    }

    method SkipWhiteSpace()
      requires Valid()
      modifies this
      ensures Valid() && input == old(input) && position == SkipSpaces(input, old(position))
    {
      while currentChar.Some? && IsSpace(currentChar.value)
        invariant Valid() && input == old(input) && old(position) <= position
        invariant SkipSpaces(input, old(position)) == RunEnd(input, position, IsSpace)
        decreases |input| - position
      {
        Advance();
      }
    }

    method RecognizeString() returns (r: Result<Token, LexError>)
      requires Valid() && currentChar == Some('"')
      modifies this
      ensures Valid() && input == old(input)
      ensures Agrees(r, position, ScanString(input, old(position)))
    {
      ghost var s, start := input, position;
      // Where the closing quote is, if there is one.
      ghost var q := RunEnd(s, start + 1, NotQuote);
      var result := "";
      var state := SStart;
      while currentChar.Some? && state != SEnd
        invariant Valid() && input == s && start <= position
        invariant start < |s| && s[start] == '"' && state != SRejected
        invariant state == SStart ==> position == start && result == ""
        invariant state == SString ==> start < position <= q && result == s[start + 1..position]
        invariant state == SEnd ==> position == q + 1 && q < |s| && result == s[start + 1..q]
        decreases |s| - position
      {
        var c := currentChar.value;
        if state == SStart && c == '"' {
          state := SString;
        } else if state == SString {
          if c == '"' {
            state := SEnd;
          }
        } else {
          state := SRejected;
        }
        if state == SRejected {
          break;
        }
        if c != '"' {
          assert s[start + 1..position + 1] == result + [c];
          result := result + [c];
        }
        Advance();
      }
      if state != SEnd {
        // With nothing read, the source reports `current_char`, which is `None` here.
        assert position == q == |s| && result == s[start + 1..];
        r := Err(EndOfInputError(position, result));
        return;
      }
      r := Ok(Token(STR, result));
    }

    method RecognizeNum() returns (t: Token)
      requires Valid()
      modifies this
      ensures Valid() && input == old(input)
      ensures ScanNum(input, old(position)) == Lexed(t, position)
    {
      ghost var s, start := input, position;
      var result := "";
      while currentChar.Some? && IsNumChar(currentChar.value)
        invariant Valid() && input == s && start <= position
        invariant result == s[start..position]
        invariant RunEnd(s, start, IsNumChar) == RunEnd(s, position, IsNumChar)
        decreases |s| - position
      {
        RunAdvance(s, start, position, IsNumChar);
        result := result + [currentChar.value];
        Advance();
      }
      t := Token(NUM, result);
    }

    method RecognizeBool() returns (r: Result<Token, LexError>)
      requires Valid() && (currentChar == Some('t') || currentChar == Some('f'))
      modifies this
      ensures Valid() && input == old(input)
      ensures Agrees(r, position, ScanBool(input, old(position)))
    {
      ghost var s, start := input, position;
      var result := "";
      var state := BStart;
      assert s[start..start] == [];
      while currentChar.Some? && IsBoolLetter(currentChar.value)
        invariant Valid() && input == s && start <= position
        invariant result == s[start..position]
        invariant state == BoolAfter(result) && state != BReject
        invariant BoolEnd(s, start, start) == BoolEnd(s, start, position)
        decreases |s| - position
      {
        var c := currentChar.value;
        state := BoolStep(state, c);
        if state == BReject {
          break;
        }
        BoolAdvance(s, start, position);
        result := result + [c];
        Advance();
      }
      ScanBoolEnds(s, start, position);
      // The source also reports `current_char` when nothing was read; that cannot happen
      // here, since the recognizer starts on `t` or `f`.
      if state != BE {
        r := Err(LexerError(position, result));
        return;
      }
      r := Ok(Token(BOOL, result));
    }

    method RecognizeNull() returns (r: Result<Token, LexError>)
      requires Valid() && currentChar == Some('n')
      modifies this
      ensures Valid() && input == old(input)
      ensures Agrees(r, position, ScanNull(input, old(position)))
    {
      ghost var s, start := input, position;
      var result := "";
      var state := NStart;
      while currentChar.Some? && IsNullLetter(currentChar.value)
        invariant Valid() && input == s && start <= position
        invariant result == s[start..position]
        invariant state == NullAfter(result)
        invariant RunEnd(s, start, IsNullLetter) == RunEnd(s, position, IsNullLetter)
        decreases |s| - position
      {
        var c := currentChar.value;
        state := NullStep(state, c);
        NullAdvance(s, start, position);
        result := result + [c];
        Advance();
      }
      if state != NL2 {
        r := Err(LexerError(position, result));
        return;
      }
      r := Ok(Token(NULL, result));
    }

    method GetNextToken() returns (r: Result<Token, LexError>)
      requires Valid()
      modifies this
      ensures Valid() && input == old(input)
      ensures Agrees(r, position, NextToken(input, old(position)))
    {
      if currentChar.None? {
        return Ok(Token(EOF, "EOF"));
      }
      SkipWhiteSpace();
      r := RecognizeToken();
    }

    /** The rest of `get_next_token`, with the cursor past the whitespace: the token that
        starts there. */
    method RecognizeToken() returns (r: Result<Token, LexError>)
      requires Valid()
      modifies this
      ensures Valid() && input == old(input)
      ensures Agrees(r, position, TokenAt(input, old(position)))
    {
      if currentChar == Some('{') {
        Advance();
        return Ok(Token(LBRACE, "{"));
      }
      if currentChar == Some('"') {
        r := RecognizeString();
        return;
      }
      if currentChar == Some(':') {
        Advance();
        return Ok(Token(COLON, ":"));
      }
      if currentChar.None? {
        // The source calls `isdigit` on `None` here and crashes.
        return Err(WhitespaceAtEnd(position));
      }
      if StartsNumber(currentChar.value) {
        var t := RecognizeNum();
        return Ok(t);
      }
      if currentChar == Some('[') {
        Advance();
        return Ok(Token(LBRACKET, "["));
      }
      if currentChar == Some(',') {
        Advance();
        return Ok(Token(COMMA, ","));
      }
      if currentChar == Some(']') {
        Advance();
        return Ok(Token(RBRACKET, "]"));
      }
      if currentChar == Some('}') {
        Advance();
        return Ok(Token(RBRACE, "}"));
      }
      if currentChar == Some('n') {
        r := RecognizeNull();
        return;
      }
      if currentChar == Some('t') || currentChar == Some('f') {
        r := RecognizeBool();
        return;
      }
      if currentChar == Some(';') {
        Advance();
        return Ok(Token(SEMICOLON, ";"));
      }
      return Err(LexerError(position, [currentChar.value]));
    }

    /** `tokenize`: scan tokens until the EOF token has been appended. */
    method Tokenize(text: string) returns (r: Result<seq<Token>, LexError>)
      modifies this
      ensures Valid() && input == text
      ensures r == ScannerSpec.Tokenize(text)
      ensures r.Ok? ==> EofTerminated(r.value)
    {
      input, position := text, 0;
      currentChar := if |text| > 0 then Some(text[0]) else None;
      var tokens: seq<Token> := [];
      var token: Option<Token> := None;
      PrependNothing(TokenizeFrom(text, 0));
      while token.None? || token.value.kind != EOF
        invariant Valid() && input == text
        invariant token.None? ==> tokens == [] && position == 0
        invariant token.None? || token.value.kind != EOF ==>
          ScannerSpec.Tokenize(text) == Prepend(tokens, TokenizeFrom(text, position))
        invariant token.Some? && token.value.kind == EOF ==> ScannerSpec.Tokenize(text) == Ok(tokens)
        decreases |text| - position, if token.None? then 2 else if token.value.kind != EOF then 1 else 0
      {
        ghost var before := position;
        var next := GetNextToken();
        if next.Err? {
          return Err(next.error);
        }
        TokenizeStep(tokens, text, before, next.value, position);
        tokens := tokens + [next.value];
        token := Some(next.value);
      }
      r := Ok(tokens);
    }
  }
}
