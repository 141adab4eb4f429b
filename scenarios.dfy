/** Worked inputs: the token sequences the scanner makes of small documents, and what the
    parser and the renderer make of them. */
module Scenarios {
  import opened Wrappers
  import opened Chars
  import opened Tokens
  import opened Values
  import opened ParseErrors
  import opened Numbers
  import opened ScannerSpec
  import opened ParserSpec

  const T_LBRACE := Token(LBRACE, "{")
  const T_RBRACE := Token(RBRACE, "}")
  const T_LBRACKET := Token(LBRACKET, "[")
  const T_RBRACKET := Token(RBRACKET, "]")
  const T_COLON := Token(COLON, ":")
  const T_COMMA := Token(COMMA, ",")
  const T_EOF := Token(EOF, "EOF")

  /** `{"a": 1}` is the dictionary with the one entry `a: 1`, rendered on three lines. */
  lemma OneEntry(fm: FloatModel)
    ensures ParseTokens([T_LBRACE, Token(STR, "a"), T_COLON, Token(NUM, "1"), T_RBRACE, T_EOF], fm)
      == Ok(Dict([("a", Int(1))]))
  {
    var toks := [T_LBRACE, Token(STR, "a"), T_COLON, Token(NUM, "1"), T_RBRACE, T_EOF];
    assert DigitsValue("1") == 1 by { assert "1"[..0] == ""; }
    assert NumberValue("1", fm) == Ok(Int(1));
    assert PValue(toks, fm, 3) == Ok(Parsed(Int(1), 4));
    assert PairValue(toks, fm, 2) == Ok(Parsed(Int(1), 4));
    assert !AllSpace("a") by { assert !Chars.IsSpace("a"[0]); }
    assert PPair(toks, fm, 1) == Ok(Parsed(Some(("a", Int(1))), 4));
    assert DictLoop(toks, fm, 4, [("a", Int(1))]) == Ok(Parsed(Dict([("a", Int(1))]), 5));
    assert PValue(toks, fm, 0) == Ok(Parsed(Dict([("a", Int(1))]), 5));
  }

  /** The dictionary `a: 1` is rendered on three lines, the entry indented by two blanks. */
  lemma OneEntryRender()
    ensures Render(Dict([("a", Int(1))]), 0) == "{\n  a: 1\n}"
  {
    var d := Dict([("a", Int(1))]);
    assert IntToString(1) == "1";
    assert RenderEntries(d, [("a", Int(1))][1..], 0) == "";
    assert RenderEntries(d, [("a", Int(1))], 0) == "  a: 1\n";
  }

  /** A trailing comma is dropped: `{"a": 1,}` gives the same dictionary. */
  lemma TrailingComma(fm: FloatModel)
    ensures ParseTokens([T_LBRACE, Token(STR, "a"), T_COLON, Token(NUM, "1"), T_COMMA, T_RBRACE, T_EOF], fm)
      == Ok(Dict([("a", Int(1))]))
  {
    var toks := [T_LBRACE, Token(STR, "a"), T_COLON, Token(NUM, "1"), T_COMMA, T_RBRACE, T_EOF];
    assert DigitsValue("1") == 1 by { assert "1"[..0] == ""; }
    assert PValue(toks, fm, 3) == Ok(Parsed(Int(1), 4));
    assert !AllSpace("a") by { assert !IsSpace("a"[0]); }
    assert PPair(toks, fm, 1) == Ok(Parsed(Some(("a", Int(1))), 4));
    assert PPair(toks, fm, 5) == Ok(Parsed(None, 5));
    assert DictLoop(toks, fm, 5, [("a", Int(1))]) == Ok(Parsed(Dict([("a", Int(1))]), 6));
    assert DictLoop(toks, fm, 4, [("a", Int(1))]) == Ok(Parsed(Dict([("a", Int(1))]), 6));
    assert PValue(toks, fm, 0) == Ok(Parsed(Dict([("a", Int(1))]), 6));
  }

  /** `["true", 1]`: the quoted reserved word is refused before the list's types are compared. */
  lemma ReservedBeforeType(fm: FloatModel)
    ensures ParseTokens([T_LBRACKET, Token(STR, "true"), T_COMMA, Token(NUM, "1"), T_RBRACKET, T_EOF], fm)
      == Err(ReservedWord("true"))
  {
    var toks := [T_LBRACKET, Token(STR, "true"), T_COMMA, Token(NUM, "1"), T_RBRACKET, T_EOF];
    assert PValue(toks, fm, 1) == Err(ReservedWord("true"));
    assert PValue(toks, fm, 0) == Err(ReservedWord("true"));
  }

  /** `["a", 1]` mixes a string and an integer. */
  lemma MixedList(fm: FloatModel)
    ensures ParseTokens([T_LBRACKET, Token(STR, "a"), T_COMMA, Token(NUM, "1"), T_RBRACKET, T_EOF], fm)
      == Err(ListType(Int(1)))
  {
    var toks := [T_LBRACKET, Token(STR, "a"), T_COMMA, Token(NUM, "1"), T_RBRACKET, T_EOF];
    assert DigitsValue("1") == 1 by { assert "1"[..0] == ""; }
    assert PValue(toks, fm, 1) == Ok(Parsed(Str("a"), 2));
    assert PValue(toks, fm, 3) == Ok(Parsed(Int(1), 4));
    assert ListLoop(toks, fm, 2, [Str("a")]) == Err(ListType(Int(1)));
    assert PValue(toks, fm, 0) == Err(ListType(Int(1)));
  }

  /** `{"true": 1}` uses a reserved word as a key. */
  lemma ReservedKey(fm: FloatModel)
    ensures ParseTokens([T_LBRACE, Token(STR, "true"), T_COLON, Token(NUM, "1"), T_RBRACE, T_EOF], fm)
      == Err(ReservedWordAsKey("true"))
  {
    var toks := [T_LBRACE, Token(STR, "true"), T_COLON, Token(NUM, "1"), T_RBRACE, T_EOF];
    assert !AllSpace("true") by { assert !IsSpace("true"[0]); }
    assert PPair(toks, fm, 1) == Err(ReservedWordAsKey("true"));
    assert PValue(toks, fm, 0) == Err(ReservedWordAsKey("true"));
  }

  /** `{"a": "true"}` uses a reserved word as a string value. */
  lemma ReservedValue(fm: FloatModel)
    ensures ParseTokens([T_LBRACE, Token(STR, "a"), T_COLON, Token(STR, "true"), T_RBRACE, T_EOF], fm)
      == Err(ReservedWord("true"))
  {
    var toks := [T_LBRACE, Token(STR, "a"), T_COLON, Token(STR, "true"), T_RBRACE, T_EOF];
    assert PValue(toks, fm, 3) == Err(ReservedWord("true"));
    assert PairValue(toks, fm, 2) == Err(ReservedWord("true"));
    assert !AllSpace("a") by { assert !IsSpace("a"[0]); }
    assert PPair(toks, fm, 1) == Err(ReservedWord("true"));
    assert PValue(toks, fm, 0) == Err(ReservedWord("true"));
  }

  /** `[1e2]` is a list holding the integer 100, when `float` reads `1e2` as that integer. */
  lemma IntegralExponent(fm: FloatModel)
    requires fm.converts("1e2") && fm.isIntegral("1e2") && fm.toInt("1e2") == 100
    ensures ParseTokens([T_LBRACKET, Token(NUM, "1e2"), T_RBRACKET, T_EOF], fm) == Ok(List([Int(100)]))
  {
    var toks := [T_LBRACKET, Token(NUM, "1e2"), T_RBRACKET, T_EOF];
    assert "1e2"[1] == 'e';
    assert NumberValue("1e2", fm) == Ok(Int(100));
    assert PValue(toks, fm, 1) == Ok(Parsed(Int(100), 2));
    assert ListLoop(toks, fm, 2, [Int(100)]) == Ok(Parsed(List([Int(100)]), 3));
    assert PValue(toks, fm, 0) == Ok(Parsed(List([Int(100)]), 3));
  }

  /** `{}` and `[]` are refused, with the number and kind of the token after the close. */
  lemma EmptyCollections(fm: FloatModel)
    ensures ParseTokens([T_LBRACE, T_RBRACE, T_EOF], fm) == Err(EmptyDictionary(2, EOF))
    ensures ParseTokens([T_LBRACKET, T_RBRACKET, T_EOF], fm) == Err(EmptyList(2, EOF))
  {
    var dict := [T_LBRACE, T_RBRACE, T_EOF];
    assert PPair(dict, fm, 1) == Ok(Parsed(None, 1));
    assert DictLoop(dict, fm, 1, []) == Err(EmptyDictionary(2, EOF));
    assert PValue(dict, fm, 0) == Err(EmptyDictionary(2, EOF));
    var list := [T_LBRACKET, T_RBRACKET, T_EOF];
    assert PValue(list, fm, 1) == Err(UnexpectedToken(ValueStarts, RBRACKET, 1));
    assert ListLoop(list, fm, 1, []) == Err(EmptyList(2, EOF));
    assert PValue(list, fm, 0) == Err(EmptyList(2, EOF));
  }

  /** A value missing after `:` is `null`: `{"a": }`. */
  lemma MissingValue(fm: FloatModel)
    ensures ParseTokens([T_LBRACE, Token(STR, "a"), T_COLON, T_RBRACE, T_EOF], fm) == Ok(Dict([("a", Null)]))
  {
    var toks := [T_LBRACE, Token(STR, "a"), T_COLON, T_RBRACE, T_EOF];
    assert PValue(toks, fm, 3) == Err(UnexpectedToken(ValueStarts, RBRACE, 3));
    assert PairValue(toks, fm, 2) == Err(UnexpectedToken(ValueStarts, RBRACE, 3));
    assert !AllSpace("a") by { assert !IsSpace("a"[0]); }
    assert PPair(toks, fm, 1) == Ok(Parsed(Some(("a", Null)), 3));
    assert DictLoop(toks, fm, 3, [("a", Null)]) == Ok(Parsed(Dict([("a", Null)]), 4));
    assert PValue(toks, fm, 0) == Ok(Parsed(Dict([("a", Null)]), 4));
  }

  /** A nested list that fails at `}` becomes a `null` value too: `{"a": [}`. */
  lemma NestedNullRecovery(fm: FloatModel)
    ensures ParseTokens([T_LBRACE, Token(STR, "a"), T_COLON, T_LBRACKET, T_RBRACE, T_EOF], fm) == Ok(Dict([("a", Null)]))
  {
    var toks := [T_LBRACE, Token(STR, "a"), T_COLON, T_LBRACKET, T_RBRACE, T_EOF];
    assert PValue(toks, fm, 4) == Err(UnexpectedToken(ValueStarts, RBRACE, 4));
    assert PValue(toks, fm, 3) == Err(UnexpectedToken(ValueStarts, RBRACE, 4));
    assert PairValue(toks, fm, 2) == Err(UnexpectedToken(ValueStarts, RBRACE, 4));
    assert !AllSpace("a") by { assert !IsSpace("a"[0]); }
    assert PPair(toks, fm, 1) == Ok(Parsed(Some(("a", Null)), 4));
    assert DictLoop(toks, fm, 4, [("a", Null)]) == Ok(Parsed(Dict([("a", Null)]), 5));
    assert PValue(toks, fm, 0) == Ok(Parsed(Dict([("a", Null)]), 5));
  }

  /** The tokens of `[,1,,2]`. */
  const StrayCommaTokens := [T_LBRACKET, T_COMMA, Token(NUM, "1"), T_COMMA, T_COMMA, Token(NUM, "2"), T_RBRACKET, T_EOF]

  /** From the second comma of `[,1,,2]` on: the empty slot is skipped and `2` joins `1`. */
  lemma StrayCommasTail(fm: FloatModel)
    ensures ListLoop(StrayCommaTokens, fm, 3, [Int(1)]) == Ok(Parsed(List([Int(1), Int(2)]), 7))
  {
    var toks := StrayCommaTokens;
    assert DigitsValue("2") == 2 by { assert "2"[..0] == ""; }
    assert PValue(toks, fm, 4) == Err(UnexpectedToken(ValueStarts, COMMA, 4));
    assert PValue(toks, fm, 5) == Ok(Parsed(Int(2), 6));
    assert ListLoop(toks, fm, 6, [Int(1), Int(2)]) == Ok(Parsed(List([Int(1), Int(2)]), 7));
    assert [Int(1)] + [Int(2)] == [Int(1), Int(2)];
    assert ListLoop(toks, fm, 4, [Int(1)]) == Ok(Parsed(List([Int(1), Int(2)]), 7));
  }

  /** Stray commas in a list are skipped: `[,1,,2]` is the list of 1 and 2. */
  lemma StrayCommas(fm: FloatModel)
    ensures ParseTokens(StrayCommaTokens, fm) == Ok(List([Int(1), Int(2)]))
  {
    var toks := StrayCommaTokens;
    assert DigitsValue("1") == 1 by { assert "1"[..0] == ""; }
    assert PValue(toks, fm, 1) == Err(UnexpectedToken(ValueStarts, COMMA, 1));
    assert PValue(toks, fm, 2) == Ok(Parsed(Int(1), 3));
    StrayCommasTail(fm);
    assert [] + [Int(1)] == [Int(1)];
    assert ListLoop(toks, fm, 1, []) == Ok(Parsed(List([Int(1), Int(2)]), 7));
    assert PValue(toks, fm, 0) == Ok(Parsed(List([Int(1), Int(2)]), 7));
  }

  /** The text `{"a": 1}`. */
  const OneEntryText := "{\"a\": 1}"

  /** The scanner's steps over `{"a": 1}`, one token each. */
  lemma ScanOneEntryStart(s: string)
    requires s == OneEntryText
    ensures NextToken(s, 0) == Ok(Lexed(T_LBRACE, 1))
    ensures NextToken(s, 1) == Ok(Lexed(Token(STR, "a"), 4))
  {
    assert SkipSpaces(s, 1) == 1;
    assert RunEnd(s, 3, NotQuote) == 3;
    assert RunEnd(s, 2, NotQuote) == 3;
    assert s[2..3] == "a";
  }

  lemma ScanOneEntryMiddle(s: string)
    requires s == OneEntryText
    ensures NextToken(s, 4) == Ok(Lexed(T_COLON, 5))
    ensures NextToken(s, 5) == Ok(Lexed(Token(NUM, "1"), 7))
  {
    assert SkipSpaces(s, 4) == 4;
    assert SkipSpaces(s, 6) == 6;
    assert SkipSpaces(s, 5) == 6;
    assert RunEnd(s, 7, IsNumChar) == 7;
    assert RunEnd(s, 6, IsNumChar) == 7;
    assert s[6..7] == "1";
  }

  lemma ScanOneEntryEnd(s: string)
    requires s == OneEntryText
    ensures NextToken(s, 7) == Ok(Lexed(T_RBRACE, 8))
    ensures NextToken(s, 8) == Ok(Lexed(T_EOF, 8))
  {
    assert SkipSpaces(s, 7) == 7;
  }

  /** One round of `tokenize`'s loop, read backwards: a token other than EOF, then the rest. */
  lemma TokenizeCons(s: string, p: nat, t: Token, q: nat, rest: seq<Token>)
    requires p <= |s| && NextToken(s, p) == Ok(Lexed(t, q)) && t.kind != EOF
    requires q <= |s| && TokenizeFrom(s, q) == Ok(rest)
    ensures TokenizeFrom(s, p) == Ok([t] + rest)
  {
  }

  /** The scanner makes of the text `{"a": 1}` the six tokens `OneEntry` parses. (The text is
      a parameter so that the chain below is taken one step at a time.) */
  lemma ScanOneEntry(s: string)
    requires s == OneEntryText
    ensures Tokenize(s) == Ok([T_LBRACE, Token(STR, "a"), T_COLON, Token(NUM, "1"), T_RBRACE, T_EOF])
  {
    ScanOneEntryStart(s);
    ScanOneEntryMiddle(s);
    ScanOneEntryEnd(s);
    var t5 := [T_EOF];
    assert TokenizeFrom(s, 8) == Ok(t5);
    var t4 := [T_RBRACE] + t5;
    TokenizeCons(s, 7, T_RBRACE, 8, t5);
    var t3 := [Token(NUM, "1")] + t4;
    TokenizeCons(s, 5, Token(NUM, "1"), 7, t4);
    var t2 := [T_COLON] + t3;
    TokenizeCons(s, 4, T_COLON, 5, t3);
    var t1 := [Token(STR, "a")] + t2;
    TokenizeCons(s, 1, Token(STR, "a"), 4, t2);
    TokenizeCons(s, 0, T_LBRACE, 1, t1);
    assert [T_LBRACE] + t1 == [T_LBRACE, Token(STR, "a"), T_COLON, Token(NUM, "1"), T_RBRACE, T_EOF];
  }

  /** End to end: the text `{"a": 1}`, scanned and then parsed, is the dictionary `a: 1`. */
  lemma OneEntryDocument(fm: FloatModel)
    ensures Tokenize(OneEntryText).Ok?
    ensures ParseTokens(Tokenize(OneEntryText).value, fm) == Ok(Dict([("a", Int(1))]))
  {
    ScanOneEntry(OneEntryText);
    OneEntry(fm);
  }
}
