/** The parser of JsonParser.py as functions over its token list. Each function takes the
    number of the current token and gives the value parsed with the number of the token after
    it, or the error raised. Where the source catches an error, so does the function, and
    parsing goes on from the token at which the error was raised. */
module ParserSpec {
  import opened Wrappers
  import opened Chars
  import opened Tokens
  import opened ScannerSpec
  import opened Values
  import opened ParseErrors
  import opened Numbers

  /** A result and the number of the token after it. */
  datatype Parsed<T> = Parsed(result: T, next: nat)

  /** The kinds `parse_value` lists when it finds no value. */
  const ValueStarts: seq<TokenType> := [STR, TokenType.BOOL, NUM, TokenType.NULL, LBRACE, LBRACKET]

  /** An unexpected-token error names a token at or after `pos`, and that token's kind. */
  predicate Located(toks: seq<Token>, pos: nat, e: ParseError) {
    e.UnexpectedToken? ==> pos <= e.index < |toks| && toks[e.index].kind == e.given
  }

  /** `r` consumed at least one token from `pos` on, or failed with a located error. */
  predicate Advances<T>(toks: seq<Token>, pos: nat, r: Result<Parsed<T>, ParseError>) {
    match r
    case Ok(p) => pos < p.next <= |toks|
    case Err(e) => Located(toks, pos, e)
  }

  predicate EndsWithEof(toks: seq<Token>) {
    |toks| > 0 && toks[|toks| - 1].kind == EOF
  }

  /** When the list ends with the EOF token and parsing starts before it, that token is not
      consumed and the parser never looks past the end. */
  predicate StaysBeforeEof<T>(toks: seq<Token>, pos: nat, r: Result<Parsed<T>, ParseError>) {
    EndsWithEof(toks) && pos < |toks| ==>
      match r
      case Ok(p) => p.next < |toks|
      case Err(e) => !e.NoCurrentToken?
  }

  /** The `keys` list `parse_dict` keeps beside the dictionary. */
  function KeysOf(entries: seq<(string, Value)>): (keys: seq<string>)
    ensures |keys| == |entries| && forall i :: 0 <= i < |entries| ==> keys[i] == entries[i].0
  {
    seq(|entries|, i requires 0 <= i < |entries| => entries[i].0)
  }

  /** `parse_value`. */
  function PValue(toks: seq<Token>, fm: FloatModel, pos: nat): (r: Result<Parsed<Value>, ParseError>)
    requires pos <= |toks|
    ensures Advances(toks, pos, r) && StaysBeforeEof(toks, pos, r)
    decreases |toks| - pos, 1
  {
    if pos == |toks| then Err(NoCurrentToken(pos))
    else
      var t := toks[pos];
      match t.kind
      case STR =>
        if IsReserved(t.value) then Err(ReservedWord(t.value)) else Ok(Parsed(Str(t.value), pos + 1))
      case BOOL =>
        if t.value == "true" then Ok(Parsed(Bool(true), pos + 1))
        else if t.value == "false" then Ok(Parsed(Bool(false), pos + 1))
        else Err(MalformedBool(t.value))
      case NUM =>
        (match NumberValue(t.value, fm)
         case Ok(v) => Ok(Parsed(v, pos + 1))
         case Err(e) => Err(e))
      case NULL => Ok(Parsed(Null, pos + 1))
      case LBRACE => PDict(toks, fm, pos)
      case LBRACKET => PList(toks, fm, pos)
      case _ => Err(UnexpectedToken(ValueStarts, t.kind, pos))
  }

  /** `parse_dict`, up to its first pair; `DictLoop` is the rest. */
  function PDict(toks: seq<Token>, fm: FloatModel, pos: nat): (r: Result<Parsed<Value>, ParseError>)
    requires pos < |toks| && toks[pos].kind == LBRACE
    ensures Advances(toks, pos, r) && StaysBeforeEof(toks, pos, r)
    decreases |toks| - pos, 0
  {
    match PPair(toks, fm, pos + 1)
    case Err(e) => Err(e)
    case Ok(Parsed(pair, p)) => DictLoop(toks, fm, p, if pair.Some? then [pair.value] else [])
  }

  /** The loop of `parse_dict` from the token at `pos`, with `entries` collected so far: a pair
      after each comma, then `}`. */
  function DictLoop(toks: seq<Token>, fm: FloatModel, pos: nat, entries: seq<(string, Value)>)
    : (r: Result<Parsed<Value>, ParseError>)
    requires pos <= |toks|
    ensures Advances(toks, pos, r) && StaysBeforeEof(toks, pos, r)
    decreases |toks| - pos, 0
  {
    if pos == |toks| then Err(NoCurrentToken(pos))
    else if toks[pos].kind == COMMA then
      match PPair(toks, fm, pos + 1)
      case Err(e) => Err(e)
      case Ok(Parsed(None, p)) => DictLoop(toks, fm, p, entries)
      case Ok(Parsed(Some(pair), p)) =>
        if pair.0 in KeysOf(entries) then Err(DuplicateKey(pair.0))
        else DictLoop(toks, fm, p, entries + [pair])
    else if toks[pos].kind != RBRACE then Err(UnexpectedToken([RBRACE], toks[pos].kind, pos))
    else if entries == [] then
      if pos + 1 == |toks| then Err(NoCurrentToken(pos + 1)) else Err(EmptyDictionary(pos + 1, toks[pos + 1].kind))
    else Ok(Parsed(Dict(entries), pos + 1))
  }

  /** `parse_pair`: no pair when the key's place holds `}` or `,`; otherwise a key that is
      checked before anything else, then the separator and the value, which is `null` when
      either of them fails at a `}`. */
  function PPair(toks: seq<Token>, fm: FloatModel, pos: nat): (r: Result<Parsed<Option<(string, Value)>>, ParseError>)
    requires pos <= |toks|
    ensures r.Ok? ==> pos <= r.value.next <= |toks| && (r.value.result.None? <==> r.value.next == pos)
    ensures r.Err? ==> Located(toks, pos, r.error)
    ensures StaysBeforeEof(toks, pos, r)
    decreases |toks| - pos, 0
  {
    if pos == |toks| then Err(NoCurrentToken(pos))
    else
      var key := toks[pos].value;
      if toks[pos].kind != STR then
        if toks[pos].kind == RBRACE || toks[pos].kind == COMMA then Ok(Parsed(None, pos))
        else Err(UnexpectedToken([STR], toks[pos].kind, pos))
      else if AllSpace(key) then Err(EmptyKey(key))
      else if IsReserved(key) then Err(ReservedWordAsKey(key))
      else
        match PairValue(toks, fm, pos + 1)
        case Ok(Parsed(value, p)) => Ok(Parsed(Some((key, value)), p))
        case Err(e) =>
          if CaughtAt(e, {RBRACE}) then Ok(Parsed(Some((key, Null)), e.index)) else Err(e)
  }

  /** The separator of a pair, `:` or in its place `;`, and the value after it. */
  function PairValue(toks: seq<Token>, fm: FloatModel, pos: nat): (r: Result<Parsed<Value>, ParseError>)
    requires pos <= |toks|
    ensures Advances(toks, pos, r) && StaysBeforeEof(toks, pos, r)
    decreases |toks| - pos, 0
  {
    if pos == |toks| then Err(NoCurrentToken(pos))
    else if toks[pos].kind == COLON || toks[pos].kind == SEMICOLON then PValue(toks, fm, pos + 1)
    else Err(UnexpectedToken([SEMICOLON], toks[pos].kind, pos))
  }

  /** `parse_list`, up to its first element; `ListLoop` is the rest. An element that fails at
      `,` or `]` is left out. */
  function PList(toks: seq<Token>, fm: FloatModel, pos: nat): (r: Result<Parsed<Value>, ParseError>)
    requires pos < |toks| && toks[pos].kind == LBRACKET
    ensures Advances(toks, pos, r) && StaysBeforeEof(toks, pos, r)
    decreases |toks| - pos, 0
  {
    match PValue(toks, fm, pos + 1)
    case Ok(Parsed(v, p)) => ListLoop(toks, fm, p, [v])
    case Err(e) =>
      if CaughtAt(e, {COMMA, RBRACKET}) then ListLoop(toks, fm, e.index, []) else Err(e)
  }

  /** The loop of `parse_list` from the token at `pos`, with `items` collected so far: an
      element after each comma, then `]`. */
  function ListLoop(toks: seq<Token>, fm: FloatModel, pos: nat, items: seq<Value>): (r: Result<Parsed<Value>, ParseError>)
    requires pos <= |toks|
    ensures Advances(toks, pos, r) && StaysBeforeEof(toks, pos, r)
    decreases |toks| - pos, 0
  {
    if pos == |toks| then Err(NoCurrentToken(pos))
    else if toks[pos].kind == COMMA then
      match PValue(toks, fm, pos + 1)
      case Ok(Parsed(v, p)) =>
        if items != [] && TypeOf(v) != TypeOf(items[0]) then Err(ListType(v))
        else ListLoop(toks, fm, p, items + [v])
      case Err(e) =>
        if CaughtAt(e, {COMMA, RBRACKET}) then ListLoop(toks, fm, e.index, items) else Err(e)
    else if toks[pos].kind != RBRACKET then Err(UnexpectedToken([RBRACKET], toks[pos].kind, pos))
    else if items == [] then
      if pos + 1 == |toks| then Err(NoCurrentToken(pos + 1)) else Err(EmptyList(pos + 1, toks[pos + 1].kind))
    else Ok(Parsed(List(items), pos + 1))
  }

  /** `parse`: one value, then the EOF token. On a list the scanner could have made, a value
      is returned only when it spans every token before the EOF token; on any list that ends
      with the EOF token, the parser never looks past the end. */
  function ParseTokens(toks: seq<Token>, fm: FloatModel): (r: Result<Value, ParseError>)
    ensures EofTerminated(toks) && r.Ok? ==> PValue(toks, fm, 0) == Ok(Parsed(r.value, |toks| - 1))
    ensures EndsWithEof(toks) && r.Err? ==> !r.error.NoCurrentToken?
  {
    match PValue(toks, fm, 0)
    case Err(e) => Err(e)
    case Ok(Parsed(v, p)) =>
      if p == |toks| then Err(NoCurrentToken(p))
      else if toks[p].kind == EOF then Ok(v)
      else Err(UnexpectedToken([EOF], toks[p].kind, p))
  }

  // ---------------------------------------------------------------- one step of each loop

  lemma KeysOfAppend(entries: seq<(string, Value)>, pair: (string, Value))
    ensures KeysOf(entries + [pair]) == KeysOf(entries) + [pair.0]
  {
  }

  lemma DictLoopComma(toks: seq<Token>, fm: FloatModel, pos: nat, entries: seq<(string, Value)>)
    requires pos < |toks| && toks[pos].kind == COMMA
    ensures var step := PPair(toks, fm, pos + 1);
      DictLoop(toks, fm, pos, entries) ==
        match step
        case Err(e) => Err(e)
        case Ok(Parsed(None, p)) => DictLoop(toks, fm, p, entries)
        case Ok(Parsed(Some(pair), p)) =>
          if pair.0 in KeysOf(entries) then Err(DuplicateKey(pair.0))
          else DictLoop(toks, fm, p, entries + [pair])
  {
  }

  lemma DictLoopClose(toks: seq<Token>, fm: FloatModel, pos: nat, entries: seq<(string, Value)>)
    requires pos < |toks| && toks[pos].kind != COMMA
    ensures DictLoop(toks, fm, pos, entries) ==
      if toks[pos].kind != RBRACE then Err(UnexpectedToken([RBRACE], toks[pos].kind, pos))
      else if entries == [] then
        if pos + 1 == |toks| then Err(NoCurrentToken(pos + 1)) else Err(EmptyDictionary(pos + 1, toks[pos + 1].kind))
      else Ok(Parsed(Dict(entries), pos + 1))
  {
  }

  lemma ListLoopComma(toks: seq<Token>, fm: FloatModel, pos: nat, items: seq<Value>)
    requires pos < |toks| && toks[pos].kind == COMMA
    ensures ListLoop(toks, fm, pos, items) ==
      match PValue(toks, fm, pos + 1)
      case Ok(Parsed(v, p)) =>
        if items != [] && TypeOf(v) != TypeOf(items[0]) then Err(ListType(v))
        else ListLoop(toks, fm, p, items + [v])
      case Err(e) =>
        if CaughtAt(e, {COMMA, RBRACKET}) then ListLoop(toks, fm, e.index, items) else Err(e)
  {
  }

  lemma ListLoopClose(toks: seq<Token>, fm: FloatModel, pos: nat, items: seq<Value>)
    requires pos < |toks| && toks[pos].kind != COMMA
    ensures ListLoop(toks, fm, pos, items) ==
      if toks[pos].kind != RBRACKET then Err(UnexpectedToken([RBRACKET], toks[pos].kind, pos))
      else if items == [] then
        if pos + 1 == |toks| then Err(NoCurrentToken(pos + 1)) else Err(EmptyList(pos + 1, toks[pos + 1].kind))
      else Ok(Parsed(List(items), pos + 1))
  {
  }
}
