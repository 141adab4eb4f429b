/** The two programs together: the scanner's tokens, printed one per line by its driver and
    read back by the parser's reader, arrive unchanged, except for strings whose text the line
    format cannot carry. */
module Pipeline {
  import opened Wrappers
  import opened Chars
  import opened Tokens
  import opened ScannerSpec
  import opened ScannerLemmas
  import opened TokenStream
  import opened StreamLemmas

  /** A number lexeme holds no angle bracket, no line break and no whitespace. */
  lemma NumberLexemePlain(v: string)
    requires forall k :: 0 <= k < |v| ==> IsNumChar(v[k])
    ensures Transmissible(Token(NUM, v))
  {
    assert forall k :: 0 <= k < |v| ==> v[k] != '<' && v[k] != '>' && v[k] != '\n' && !IsSpace(v[k]);
  }

  /** After whitespace, a punctuation character gives a token the format carries. */
  lemma PunctuationCarried(s: string, p: nat)
    requires p < |s| && SkipSpaces(s, p) < |s| && IsPunctuation(s[SkipSpaces(s, p)])
    ensures NextToken(s, p).Ok? && Transmissible(NextToken(s, p).value.token)
  {
    PunctuationToken(s, p);
    var c := s[SkipSpaces(s, p)];
    assert Transmissible(Token(PunctuationKind(c), [c]));
  }

  /** After whitespace, a character that starts a number gives a number token. */
  lemma NumberCarried(s: string, p: nat)
    requires p < |s| && SkipSpaces(s, p) < |s| && StartsNumber(s[SkipSpaces(s, p)])
    ensures NextToken(s, p).Ok? && Transmissible(NextToken(s, p).value.token)
  {
    var q := SkipSpaces(s, p);
    assert NextToken(s, p) == Ok(ScanNum(s, q));
    var l := ScanNum(s, q);
    assert forall k :: 0 <= k < |l.token.value| ==> l.token.value[k] == s[q + k];
    NumberLexemePlain(l.token.value);
  }

  /** After whitespace, `n` gives the token `null` or an error. */
  lemma NullCarried(s: string, p: nat)
    requires p < |s| && SkipSpaces(s, p) < |s| && s[SkipSpaces(s, p)] == 'n'
    ensures NextToken(s, p).Ok? ==> Transmissible(NextToken(s, p).value.token)
  {
    var q := SkipSpaces(s, p);
    assert NextToken(s, p) == ScanNull(s, q);
    ScanNullAccepts(s, q);
    assert Transmissible(Token(NULL, "null"));
  }

  lemma BoolDispatch(s: string, p: nat)
    requires p < |s| && SkipSpaces(s, p) < |s|
    requires s[SkipSpaces(s, p)] == 't' || s[SkipSpaces(s, p)] == 'f'
    ensures NextToken(s, p) == ScanBool(s, SkipSpaces(s, p))
  {
  }

  lemma BoolWordCarried(s: string, q: nat)
    requires q < |s| && (s[q] == 't' || s[q] == 'f')
    ensures ScanBool(s, q).Ok? ==> Transmissible(ScanBool(s, q).value.token)
  {
    ScanBoolOnlyWords(s, q);
    assert Transmissible(Token(BOOL, "true")) && Transmissible(Token(BOOL, "false"));
  }

  /** After whitespace, `t` or `f` gives the token `true`, `false` or an error. */
  lemma BoolCarried(s: string, p: nat)
    requires p < |s| && SkipSpaces(s, p) < |s|
    requires s[SkipSpaces(s, p)] == 't' || s[SkipSpaces(s, p)] == 'f'
    ensures NextToken(s, p).Ok? ==> Transmissible(NextToken(s, p).value.token)
  {
    BoolDispatch(s, p);
    BoolWordCarried(s, SkipSpaces(s, p));
  }

  /** Every token `get_next_token` returns, except a string, is one the line format carries. */
  lemma ScannedTokenCarried(s: string, p: nat)
    requires p <= |s| && NextToken(s, p).Ok? && NextToken(s, p).value.token.kind != STR
    ensures Transmissible(NextToken(s, p).value.token)
  {
    if p == |s| {
      assert Transmissible(Token(EOF, "EOF"));
    } else {
      var q := SkipSpaces(s, p);
      var c := s[q];
      if IsPunctuation(c) {
        PunctuationCarried(s, p);
      } else if StartsNumber(c) {
        NumberCarried(s, p);
      } else if c == 'n' {
        NullCarried(s, p);
      } else if c == 't' || c == 'f' {
        BoolCarried(s, p);
      } else if c != '"' {
        UnknownCharacter(s, p);
      }
    }
  }

  /** Every token `tokenize` returns, except a string, is one the line format carries. */
  lemma {:induction false} ScannedTokensCarried(s: string, p: nat)
    requires p <= |s| && TokenizeFrom(s, p).Ok?
    ensures var ts := TokenizeFrom(s, p).value;
      forall i :: 0 <= i < |ts| && ts[i].kind != STR ==> Transmissible(ts[i])
    decreases |s| - p
  {
    var ts := TokenizeFrom(s, p).value;
    var l := NextToken(s, p).value;
    if l.token.kind != STR {
      ScannedTokenCarried(s, p);
    }
    if l.token.kind != EOF {
      ScannedTokensCarried(s, l.next);
      var rest := TokenizeFrom(s, l.next).value;
      assert ts == [l.token] + rest;
      assert forall i :: 0 < i < |ts| ==> ts[i] == rest[i - 1];
    }
  }

  /** Scanning, printing and reading back: when every string the scanner finds holds no angle
      bracket or line break and does not start with whitespace, the parser's reader gets
      exactly the scanner's tokens. */
  lemma {:induction false} ScanPrintRead(s: string)
    requires Tokenize(s).Ok?
    requires var ts := Tokenize(s).value;
      forall i :: 0 <= i < |ts| && ts[i].kind == STR ==> Transmissible(ts[i])
    ensures Decode(Serialize(Tokenize(s).value)) == Ok(Tokenize(s).value)
  {
    ScannedTokensCarried(s, 0);
    StreamRoundTrip(Tokenize(s).value);
  }

  /** The content of a line `<w<...` is `w`: it ends at the second `<`. */
  lemma ContentUpToBracket(w: string, rest: string)
    requires '<' !in w && '>' !in w && |rest| > 0 && rest[0] == '<'
    ensures LineContent("<" + w + rest) == Some(w)
  {
    var line := "<" + w + rest;
    FirstIndexIs(line, '<', 0);
    var r := line[1..];
    assert r == w + rest;
    FirstIndexIs(r, '<', |w|);
    assert r[..|w|] == w;
    FirstIndexIs(w, '>', |w|);
    assert w[..|w|] == w;
  }

  /** The content the reader finds in the printed form of a string holding `<`: the text up to
      that `<`. */
  lemma StrLineCut(a: string, b: string)
    requires '<' !in a && '>' !in a
    ensures LineContent(Repr(Token(STR, a + "<" + b))) == Some(TypeName(STR) + ", " + a)
  {
    PrintedNamePlain(STR);
    StrReprSplit(a, b);
    ContentUpToBracket(TypeName(STR) + ", " + a, "<" + b + ">");
  }

  lemma StrReprSplit(a: string, b: string)
    ensures Repr(Token(STR, a + "<" + b)) == "<" + (TypeName(STR) + ", " + a) + ("<" + b + ">")
  {
    var n := TypeName(STR);
    assert "<" + n + ", " + (a + "<" + b) + ">" == "<" + (n + ", " + a) + ("<" + b + ">");
  }

  /** A string holding `<` does not survive: the reader cuts it at its first `<` (so `"<a>"`,
      printed as the line `<STR, <a>>`, comes back as the empty string). */
  lemma AngleBracketLost(a: string, b: string)
    requires '<' !in a && '>' !in a
    ensures TokenizeLine(Repr(Token(STR, a + "<" + b))) == Some(Token(STR, LStrip(a)))
  {
    StrLineCut(a, b);
    TypedFields(STR, a);
  }
}
