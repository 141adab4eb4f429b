/** Which lexemes each recognizer of the scanner accepts, and how dispatch behaves. */
module ScannerLemmas {
  import opened Wrappers
  import opened Chars
  import opened Tokens
  import opened ScannerSpec

  /** Every state of the boolean automaton stands for exactly one prefix of "true" or "false"
      (the final state for the two whole words); every other word is rejected. */
  lemma {:induction false} BoolAfterLanguage(w: string)
    ensures BoolAfter(w) == BStart <==> w == ""
    ensures BoolAfter(w) == BT <==> w == "t"
    ensures BoolAfter(w) == BR <==> w == "tr"
    ensures BoolAfter(w) == BU <==> w == "tru"
    ensures BoolAfter(w) == BF <==> w == "f"
    ensures BoolAfter(w) == BA <==> w == "fa"
    ensures BoolAfter(w) == BL <==> w == "fal"
    ensures BoolAfter(w) == BS <==> w == "fals"
    ensures BoolAfter(w) == BE <==> w == "true" || w == "false"
  {
    if w != [] {
      var u, c := w[..|w| - 1], w[|w| - 1];
      assert w == u + [c];
      BoolAfterLanguage(u);
    }
  }

  /** The null automaton ends in its accepting state on "null" and on nothing else. */
  lemma {:induction false} NullAfterLanguage(w: string)
    ensures NullAfter(w) == NStart <==> w == ""
    ensures NullAfter(w) == NN <==> w == "n"
    ensures NullAfter(w) == NU <==> w == "nu"
    ensures NullAfter(w) == NL1 <==> w == "nul"
    ensures NullAfter(w) == NL2 <==> w == "null"
  {
    if w != [] {
      var u, c := w[..|w| - 1], w[|w| - 1];
      assert w == u + [c];
      NullAfterLanguage(u);
    }
  }

  /** `w` stands at `p` in `s` as a whole word: the input ends after it or goes on with a
      character outside `letters`. */
  predicate WordAt(s: string, p: nat, w: string, letters: char -> bool) {
    p + |w| <= |s| && s[p..p + |w|] == w && (p + |w| == |s| || !letters(s[p + |w|]))
  }

  /** One more letter is one more step of the boolean automaton. */
  lemma BoolAfterSnoc(w: string, c: char)
    ensures BoolAfter(w + [c]) == BoolStep(BoolAfter(w), c)
  {
    assert (w + [c])[..|w|] == w;
  }

  /** The states the boolean automaton passes through on "true" and on "false". */
  function WordStates(w: string): (q: seq<BoolState>)
    requires w == "true" || w == "false"
    ensures |q| == |w| + 1 && q[0] == BStart && q[|w|] == BE
  {
    if w == "true" then [BStart, BT, BR, BU, BE] else [BStart, BF, BA, BL, BS, BE]
  }

  /** The boolean automaton reads the letters of `w` through `states`, one state after each,
      without rejecting. */
  ghost predicate Follows(w: string, states: seq<BoolState>) {
    |states| == |w| + 1 && states[0] == BStart && (forall k :: 0 <= k < |states| ==> states[k] != BReject) &&
    forall k :: 0 <= k < |w| ==> IsBoolLetter(w[k]) && BoolStep(states[k], w[k]) == states[k + 1]
  }

  lemma KeywordFollows(w: string)
    requires w == "true" || w == "false"
    ensures Follows(w, WordStates(w))
  {
  }

  /** After at least one letter of a keyword, anything but its next letter is rejected. */
  lemma WordStepRejects(w: string, n: nat, c: char)
    requires (w == "true" || w == "false") && 0 < n <= |w| && (n == |w| || c != w[n])
    ensures BoolStep(WordStates(w)[n], c) == BReject
  {
  }

  /** Reading the first `n` letters of `w` at `p`, the automaton is in the state after `i - p`
      of them. */
  lemma {:induction false} BoolAfterAlong(s: string, p: nat, w: string, states: seq<BoolState>, n: nat, i: nat)
    requires Follows(w, states) && n <= |w| && p + n <= |s| && s[p..p + n] == w[..n]
    requires p <= i <= p + n
    ensures BoolAfter(s[p..i]) == states[i - p]
    decreases i
  {
    if i == p {
      assert s[p..i] == [];
    } else {
      BoolAfterAlong(s, p, w, states, n, i - 1);
      assert s[p..i] == s[p..i - 1] + [s[i - 1]];
      BoolAfterSnoc(s[p..i - 1], s[i - 1]);
      assert s[i - 1] == s[p..p + n][i - 1 - p] == w[i - 1 - p];
    }
  }

  /** When `s` holds the first `n` letters of `w` at `p` and the automaton stops after them, the
      boolean recognizer, from any point inside those letters, stops there. */
  lemma {:induction false} BoolEndAt(s: string, p: nat, w: string, states: seq<BoolState>, n: nat, i: nat)
    requires Follows(w, states) && n <= |w| && p + n <= |s| && s[p..p + n] == w[..n]
    requires p + n == |s| || !IsBoolLetter(s[p + n]) || BoolStep(states[n], s[p + n]) == BReject
    requires p <= i <= p + n
    ensures BoolAfter(s[p..i]) != BReject && BoolEnd(s, p, i) == p + n
    decreases p + n - i
  {
    BoolAfterAlong(s, p, w, states, n, i);
    if i < p + n {
      BoolEndAt(s, p, w, states, n, i + 1);
      BoolAfterAlong(s, p, w, states, n, i + 1);
      assert s[i] == s[p..p + n][i - p] == w[i - p];
    } else {
      BoolAfterAlong(s, p, w, states, n, p + n);
    }
  }

  /** A whole word "true" or "false" is accepted as a BOOL token. */
  lemma ScanBoolWord(s: string, p: nat, w: string)
    requires (w == "true" || w == "false") && p < |s| && WordAt(s, p, w, IsBoolLetter)
    ensures ScanBool(s, p) == Ok(Lexed(Token(BOOL, w), p + |w|))
  {
    assert s[p] == s[p..p + |w|][0] == w[0];
    assert w[..|w|] == w;
    KeywordFollows(w);
    BoolEndAt(s, p, w, WordStates(w), |w|, p);
    BoolAfterAlong(s, p, w, WordStates(w), |w|, p + |w|);
  }

  /** A keyword run on into another letter (`truee`, `falses`) is cut after the keyword and
      reported there. */
  lemma ScanBoolRunOn(s: string, p: nat, w: string)
    requires (w == "true" || w == "false") && p + |w| < |s| && s[p..p + |w|] == w
    requires IsBoolLetter(s[p + |w|])
    ensures ScanBool(s, p) == Err(LexerError(p + |w|, w))
  {
    assert s[p] == s[p..p + |w|][0] == w[0];
    assert w[..|w|] == w;
    KeywordFollows(w);
    WordStepRejects(w, |w|, s[p + |w|]);
    BoolEndAt(s, p, w, WordStates(w), |w|, p);
  }

  /** An unfinished keyword (`tru`, `fals` at the end of input, `fa` before a space, `trx`) is
      reported with the letters read so far, at the position after them. */
  lemma ScanBoolUnfinished(s: string, p: nat, w: string, n: nat)
    requires (w == "true" || w == "false") && 0 < n < |w| && p + n <= |s| && s[p..p + n] == w[..n]
    requires p + n == |s| || s[p + n] != w[n]
    ensures ScanBool(s, p) == Err(LexerError(p + n, w[..n]))
  {
    assert s[p] == s[p..p + n][0] == w[0];
    KeywordFollows(w);
    if p + n < |s| {
      WordStepRejects(w, n, s[p + n]);
    }
    BoolEndAt(s, p, w, WordStates(w), n, p);
    BoolAfterAlong(s, p, w, WordStates(w), n, p + n);
  }

  /** The boolean recognizer accepts nothing but a whole word "true" or "false": whatever
      else starts with `t` or `f` (`tru` at the end of input, `truee`, `fals`) is a
      `LexerError`. */
  lemma ScanBoolOnlyWords(s: string, p: nat)
    requires p < |s| && (s[p] == 't' || s[p] == 'f')
    ensures ScanBool(s, p).Ok? ==>
      (WordAt(s, p, "true", IsBoolLetter) && ScanBool(s, p).value == Lexed(Token(BOOL, "true"), p + 4)) ||
      (WordAt(s, p, "false", IsBoolLetter) && ScanBool(s, p).value == Lexed(Token(BOOL, "false"), p + 5))
    ensures ScanBool(s, p).Err? ==> ScanBool(s, p).error.LexerError?
  {
    assert s[p..p] == [];
    var e := BoolEnd(s, p, p);
    BoolAfterLanguage(s[p..e]);
  }

  /** The null recognizer accepts exactly a whole word "null"; because it keeps reading after
      a rejection, `nulll` and `nlul` are reported whole, at the position after them. */
  lemma ScanNullAccepts(s: string, p: nat)
    requires p < |s| && s[p] == 'n'
    ensures WordAt(s, p, "null", IsNullLetter) <==> ScanNull(s, p).Ok?
    ensures ScanNull(s, p).Ok? ==> ScanNull(s, p).value == Lexed(Token(NULL, "null"), p + 4)
    ensures ScanNull(s, p).Err? ==>
      var e := RunEnd(s, p, IsNullLetter);
      ScanNull(s, p).error == LexerError(e, s[p..e]) && s[p..e] != "null"
  {
    var e := RunEnd(s, p, IsNullLetter);
    NullAfterLanguage(s[p..e]);
    if WordAt(s, p, "null", IsNullLetter) {
      assert forall k :: p <= k < p + 4 ==> s[k] == "null"[k - p];
    }
  }

  /** Characters on which `get_next_token` starts a token. */
  predicate Dispatched(c: char) {
    IsPunctuation(c) || c == '"' || StartsNumber(c) || c == 'n' || c == 't' || c == 'f'
  }

  /** After whitespace, a punctuation character is a one-character token of its kind, and the
      cursor moves past it. */
  lemma PunctuationToken(s: string, p: nat)
    requires p < |s| && SkipSpaces(s, p) < |s| && IsPunctuation(s[SkipSpaces(s, p)])
    ensures var q := SkipSpaces(s, p);
      NextToken(s, p) == Ok(Lexed(Token(PunctuationKind(s[q]), [s[q]]), q + 1))
  {
  }

  /** After whitespace, a character that starts no token is a `LexerError` at its position. */
  lemma UnknownCharacter(s: string, p: nat)
    requires p < |s| && SkipSpaces(s, p) < |s| && !Dispatched(s[SkipSpaces(s, p)])
    ensures var q := SkipSpaces(s, p);
      NextToken(s, p) == Err(LexerError(q, [s[q]]))
  {
  }

  /** Input made only of whitespace is a crash of the source, not an EOF token. */
  lemma TrailingWhitespace(s: string, p: nat)
    requires p < |s| && AllSpace(s[p..])
    ensures NextToken(s, p) == Err(WhitespaceAtEnd(|s|))
  {
    assert forall k :: p <= k < |s| ==> IsSpace(s[k]) by {
      forall k | p <= k < |s| ensures IsSpace(s[k]) { assert s[p..][k - p] == s[k]; }
    }
  }

  /** A run over characters that all qualify reaches the end of the input. */
  lemma {:induction false} RunEndAll(s: string, i: nat, ok: char -> bool)
    requires i <= |s| && forall k :: i <= k < |s| ==> ok(s[k])
    ensures RunEnd(s, i, ok) == |s|
    decreases |s| - i
  {
    if i < |s| {
      RunEndAll(s, i + 1, ok);
    }
  }

  /** Near-miss words for null: the null recognizer reads the whole run of `n`, `u` and `l`
      and reports it at the position after it. */
  lemma NullRejections()
    ensures ScanNull("nul", 0) == Err(LexerError(3, "nul"))
    ensures ScanNull("nulll", 0) == Err(LexerError(5, "nulll"))
    ensures ScanNull("nlul", 0) == Err(LexerError(4, "nlul"))
  {
    RunEndAll("nul", 0, IsNullLetter);
    RunEndAll("nulll", 0, IsNullLetter);
    RunEndAll("nlul", 0, IsNullLetter);
    assert "nul"[0..3] == "nul" && "nulll"[0..5] == "nulll" && "nlul"[0..4] == "nlul";
    NullAfterLanguage("nul");
    NullAfterLanguage("nulll");
    NullAfterLanguage("nlul");
  }
}
