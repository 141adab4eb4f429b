/** What the scanner (JsonScanner.py) computes, stated as functions of the input text and a
    position. The class `JsonScanner.Lexer` runs the source's automata step by step and is
    proved to agree with these functions; the lemmas below say which lexemes each
    recognizer accepts. */
module ScannerSpec {
  import opened Wrappers
  import opened Chars
  import opened Tokens

  /** The scanner's failures. `LexerError` and `EndOfInputError` are the source's two
      exception classes, with the position and the lexeme they report. `WhitespaceAtEnd` is the
      crash of the source when the input ends in whitespace (it tests `None.isdigit()`). */
  datatype LexError =
    | LexerError(position: nat, lexeme: string)
    | EndOfInputError(position: nat, lexeme: string)
    | WhitespaceAtEnd(position: nat)

  /** A recognized token and the position just after its lexeme. */
  datatype Lexed = Lexed(token: Token, next: nat)

  /** The lexer's `current_char` at position `p`; `None` once the input is exhausted. */
  function CharAt(s: string, p: nat): Option<char> {
    if p < |s| then Some(s[p]) else None
  }

  /** Characters the number recognizer keeps reading. */
  predicate IsNumChar(c: char) {
    IsDigit(c) || c == '+' || c == '-' || c == '.' || c == 'e'
  }

  /** Characters on which the scanner starts the number recognizer. */
  predicate StartsNumber(c: char) {
    IsDigit(c) || c == '-' || c == '.' || c == '+'
  }

  /** The letters the boolean recognizer reads: those of "true" and "false". */
  predicate IsBoolLetter(c: char) {
    c == 't' || c == 'r' || c == 'u' || c == 'e' || c == 'f' || c == 'a' || c == 'l' || c == 's'
  }

  /** The letters the null recognizer reads. */
  predicate IsNullLetter(c: char) {
    c == 'n' || c == 'u' || c == 'l'
  }

  predicate NotQuote(c: char) {
    c != '"'
  }

  /** The end of the longest run of characters satisfying `ok` that starts at `i`. */
  function RunEnd(s: string, i: nat, ok: char -> bool): (e: nat)
    requires i <= |s|
    ensures i <= e <= |s|
    ensures forall k :: i <= k < e ==> ok(s[k])
    ensures e == |s| || !ok(s[e])
    decreases |s| - i
  {
    if i < |s| && ok(s[i]) then RunEnd(s, i + 1, ok) else i
  }

  /** Where `skip_white_space` leaves the cursor. */
  function SkipSpaces(s: string, p: nat): (q: nat)
    requires p <= |s|
    ensures p <= q <= |s| && forall k :: p <= k < q ==> IsSpace(s[k])
    ensures q == |s| || !IsSpace(s[q])
  {
    RunEnd(s, p, IsSpace)
  }

  /** `recognize_string`, started on an opening quote: the token is the text up to the next
      quote, and the cursor ends after that quote; with no closing quote the input runs out. */
  function ScanString(s: string, p: nat): (r: Result<Lexed, LexError>)
    requires p < |s| && s[p] == '"'
    ensures r.Ok? <==> '"' in s[p + 1..]
    ensures r.Ok? ==> var n := r.value.next;
      p + 1 < n <= |s| && s[n - 1] == '"' && r.value.token == Token(STR, s[p + 1..n - 1])
      && '"' !in r.value.token.value
    ensures r.Err? ==> r.error == EndOfInputError(|s|, s[p + 1..])
  {
    var q := RunEnd(s, p + 1, NotQuote);
    if q == |s| then Err(EndOfInputError(|s|, s[p + 1..]))
    else Ok(Lexed(Token(STR, s[p + 1..q]), q + 1))
  }

  /** `recognize_num`: the maximal run of digits, `+`, `-`, `.` and `e`, unvalidated. */
  function ScanNum(s: string, p: nat): (r: Lexed)
    requires p <= |s|
    ensures r.token.kind == NUM && p <= r.next <= |s| && r.token.value == s[p..r.next]
    ensures forall k :: p <= k < r.next ==> IsNumChar(s[k])
    ensures r.next == |s| || !IsNumChar(s[r.next])
  {
    var e := RunEnd(s, p, IsNumChar);
    Lexed(Token(NUM, s[p..e]), e)
  }

  // ---------------------------------------------------------------- the boolean automaton

  datatype BoolState = BStart | BT | BR | BU | BF | BA | BL | BS | BE | BReject

  /** One transition of the boolean automaton; every transition not listed rejects. */
  function BoolStep(q: BoolState, c: char): BoolState {
    match q
    case BStart => if c == 't' then BT else if c == 'f' then BF else BReject
    case BT => if c == 'r' then BR else BReject
    case BR => if c == 'u' then BU else BReject
    case BU => if c == 'e' then BE else BReject
    case BF => if c == 'a' then BA else BReject
    case BA => if c == 'l' then BL else BReject
    case BL => if c == 's' then BS else BReject
    case BS => if c == 'e' then BE else BReject
    case _ => BReject
  }

  /** The state the boolean automaton is in after reading `w` from its start state. */
  function BoolAfter(w: string): BoolState {
    if w == [] then BStart else BoolStep(BoolAfter(w[..|w| - 1]), w[|w| - 1])
  }

  /** Where the boolean recognizer's loop stops: at the end of input, at a character outside
      the letter set, or at the letter that would make the automaton reject. */
  function BoolEnd(s: string, p: nat, i: nat): (e: nat)
    requires p <= i <= |s| && BoolAfter(s[p..i]) != BReject
    ensures i <= e <= |s| && BoolAfter(s[p..e]) != BReject
    ensures e == |s| || !IsBoolLetter(s[e]) || BoolStep(BoolAfter(s[p..e]), s[e]) == BReject
    decreases |s| - i
  {
    if i < |s| && IsBoolLetter(s[i]) && BoolStep(BoolAfter(s[p..i]), s[i]) != BReject then
      assert s[p..i + 1][..i - p] == s[p..i];
      BoolEnd(s, p, i + 1)
    else i
  }

  /** `recognize_bool`, started on `t` or `f`. */
  function ScanBool(s: string, p: nat): (r: Result<Lexed, LexError>)
    requires p < |s| && (s[p] == 't' || s[p] == 'f')
    ensures r.Ok? ==> var n := r.value.next;
      p < n <= |s| && r.value.token == Token(BOOL, s[p..n]) && (n == |s| || !IsBoolLetter(s[n]))
    ensures r.Err? ==>
      r.error.LexerError? && p <= r.error.position <= |s| && r.error.lexeme == s[p..r.error.position]
  {
    assert s[p..p] == [];
    var e := BoolEnd(s, p, p);
    var rejected := e < |s| && IsBoolLetter(s[e]);
    if !rejected && BoolAfter(s[p..e]) == BE then Ok(Lexed(Token(BOOL, s[p..e]), e))
    else Err(LexerError(e, s[p..e]))
  }

  // ---------------------------------------------------------------- the null automaton

  datatype NullState = NStart | NN | NU | NL1 | NL2 | NReject

  /** One transition of the null automaton; every transition not listed rejects, and the
      rejecting state has no way out. */
  function NullStep(q: NullState, c: char): NullState {
    if q == NStart && c == 'n' then NN
    else if q == NN && c == 'u' then NU
    else if q == NU && c == 'l' then NL1
    else if q == NL1 && c == 'l' then NL2
    else NReject
  }

  function NullAfter(w: string): NullState {
    if w == [] then NStart else NullStep(NullAfter(w[..|w| - 1]), w[|w| - 1])
  }

  /** `recognize_null`, started on `n`: unlike the boolean recognizer it does not stop on
      rejection, so it always reads the whole run of `n`, `u` and `l`. */
  function ScanNull(s: string, p: nat): (r: Result<Lexed, LexError>)
    requires p < |s| && s[p] == 'n'
    ensures r.Ok? ==> var n := r.value.next;
      p < n <= |s| && r.value.token == Token(NULL, s[p..n]) && (n == |s| || !IsNullLetter(s[n]))
    ensures r.Err? ==> var e := r.error.position;
      r.error.LexerError? && p < e <= |s| && r.error.lexeme == s[p..e] && (e == |s| || !IsNullLetter(s[e]))
  {
    var e := RunEnd(s, p, IsNullLetter);
    if NullAfter(s[p..e]) == NL2 then Ok(Lexed(Token(NULL, s[p..e]), e))
    else Err(LexerError(e, s[p..e]))
  }

  // ---------------------------------------------------------------- dispatch and tokenize

  /** The punctuation characters and their kinds. */
  predicate IsPunctuation(c: char) {
    c == '{' || c == '}' || c == '[' || c == ']' || c == ',' || c == ':' || c == ';'
  }

  function PunctuationKind(c: char): TokenType
    requires IsPunctuation(c)
  {
    if c == '{' then LBRACE else if c == '}' then RBRACE
    else if c == '[' then LBRACKET else if c == ']' then RBRACKET
    else if c == ',' then COMMA else if c == ':' then COLON else SEMICOLON
  }

  /** The token that starts at `q`, the cursor once past the whitespace: the dispatch of
      `get_next_token` on the character there. */
  function TokenAt(s: string, q: nat): (r: Result<Lexed, LexError>)
    requires q <= |s|
    ensures r.Ok? ==> q < r.value.next <= |s| && r.value.token.kind != EOF
  {
    if q == |s| then Err(WhitespaceAtEnd(q))
    else
      var c := s[q];
      if c == '{' then Ok(Lexed(Token(LBRACE, "{"), q + 1))
      else if c == '"' then ScanString(s, q)
      else if c == ':' then Ok(Lexed(Token(COLON, ":"), q + 1))
      else if StartsNumber(c) then Ok(ScanNum(s, q))
      else if c == '[' then Ok(Lexed(Token(LBRACKET, "["), q + 1))
      else if c == ',' then Ok(Lexed(Token(COMMA, ","), q + 1))
      else if c == ']' then Ok(Lexed(Token(RBRACKET, "]"), q + 1))
      else if c == '}' then Ok(Lexed(Token(RBRACE, "}"), q + 1))
      else if c == 'n' then ScanNull(s, q)
      else if c == 't' || c == 'f' then ScanBool(s, q)
      else if c == ';' then Ok(Lexed(Token(SEMICOLON, ";"), q + 1))
      else Err(LexerError(q, [c]))
  }

  /** `get_next_token` with the cursor at `p`: the EOF token at the end of input, otherwise the
      token after the whitespace. */
  function NextToken(s: string, p: nat): (r: Result<Lexed, LexError>)
    requires p <= |s|
    ensures p == |s| ==> r == Ok(Lexed(Token(EOF, "EOF"), p))
    ensures p < |s| && r.Ok? ==>
      var q := SkipSpaces(s, p);
      q < |s| && !IsSpace(s[q]) && q < r.value.next <= |s| && r.value.token.kind != EOF
  {
    if p == |s| then Ok(Lexed(Token(EOF, "EOF"), p))
    else TokenAt(s, SkipSpaces(s, p))
  }

  /** A token sequence as `tokenize` returns it: it ends with the EOF token and has no
      other EOF token. */
  predicate EofTerminated(ts: seq<Token>) {
    |ts| > 0 && ts[|ts| - 1].kind == EOF && forall i :: 0 <= i < |ts| - 1 ==> ts[i].kind != EOF
  }

  /** `tokenize`'s loop from position `p` on. */
  function TokenizeFrom(s: string, p: nat): (r: Result<seq<Token>, LexError>)
    requires p <= |s|
    ensures r.Ok? ==> EofTerminated(r.value)
    decreases |s| - p
  {
    match NextToken(s, p)
    case Err(e) => Err(e)
    case Ok(Lexed(t, q)) =>
      if t.kind == EOF then Ok([t])
      else
        match TokenizeFrom(s, q)
        case Err(e) => Err(e)
        case Ok(ts) => Ok([t] + ts)
  }

  /** `tokenize(input)`. */
  function Tokenize(s: string): (r: Result<seq<Token>, LexError>)
    ensures r.Ok? ==> EofTerminated(r.value)
  {
    TokenizeFrom(s, 0)
  }
}
