/** The `Parser` class of JsonParser.py. The cursor of its `Tokenizer` is kept in the parser
    itself: `index` is the tokenizer's `current_index` and `current` the parser's
    `current_token`. Each method is proved to do what the function for it in `ParserSpec`
    describes, and returns an error where the source raises one. */
module JsonParser {
  import opened Wrappers
  import opened Chars
  import opened Tokens
  import opened Values
  import opened ParseErrors
  import opened Numbers
  import opened ParserSpec
  import opened ParserLemmas
  import opened TokenStream
  import opened ScannerSpec

  /** A method's outcome `r`, with the cursor left at `index`, is the one `spec` describes;
      after an unexpected token the cursor is still on that token. */
  predicate Agrees<T(==)>(r: Result<T, ParseError>, index: int, spec: Result<Parsed<T>, ParseError>) {
    match r
    case Ok(v) => index >= 0 && spec == Ok(Parsed(v, index))
    case Err(e) => spec == Err(e) && (e.UnexpectedToken? ==> index == e.index)
  }

  class Parser {
    const tokens: seq<Token>
    const floats: FloatModel
    var index: int
    var current: Option<Token>

    /** `current_token` is the token at `current_index`, or `None` before the first call of
        `next_token` and past the last token. */
    ghost predicate Valid()
      reads this
    {
      -1 <= index && current == (if 0 <= index < |tokens| then Some(tokens[index]) else None)
    }

    /** A parser over the tokens the `Tokenizer` read, before its first token. */
    constructor (tokens: seq<Token>, floats: FloatModel)
      ensures Valid() && this.tokens == tokens && this.floats == floats && index == -1
    {
      this.tokens := tokens;
      this.floats := floats;
      index := -1;
      current := None;
    }

    /** `next_token`: return the current token and move to the next one. */
    method NextToken() returns (t: Option<Token>)
      requires Valid()
      modifies this
      ensures Valid() && index == old(index) + 1 && t == old(current)
    {
      t := current;
      index := index + 1;
      current := if index < |tokens| then Some(tokens[index]) else None;
    }

    /** `eat`: consume the current token when it has the expected kind. */
    method Eat(kind: TokenType) returns (r: Result<Token, ParseError>)
      requires Valid() && 0 <= index <= |tokens|
      modifies this
      ensures Valid()
      ensures old(index) < |tokens| && tokens[old(index)].kind == kind ==>
        r == Ok(tokens[old(index)]) && index == old(index) + 1
      ensures old(index) == |tokens| ==> r == Err(NoCurrentToken(old(index))) && index == old(index)
      ensures old(index) < |tokens| && tokens[old(index)].kind != kind ==>
        r == Err(UnexpectedToken([kind], tokens[old(index)].kind, old(index))) && index == old(index)
    {
      if current.None? {
        return Err(NoCurrentToken(index));
      }
      if current.value.kind == kind {
        var t := NextToken();
        return Ok(t.value);
      }
      return Err(UnexpectedToken([kind], current.value.kind, index));
    }

    /** `parse`: one value, then the EOF token. */
    method Parse() returns (r: Result<Value, ParseError>)
      requires Valid() && index == -1
      modifies this
      ensures r == ParseTokens(tokens, floats)
    {
      var first := NextToken();
      var value := ParseValue();
      if value.Err? {
        return Err(value.error);
      }
      var end := Eat(EOF);
      if end.Err? {
        return Err(end.error);
      }
      return Ok(value.value);
    }

    /** `parse_value`: choose by the kind of the current token. */
    method ParseValue() returns (r: Result<Value, ParseError>)
      requires Valid() && 0 <= index <= |tokens|
      modifies this
      ensures Valid() && index <= |tokens|
      ensures Agrees(r, index, PValue(tokens, floats, old(index)))
      decreases |tokens| - index, 1
    {
      if current.None? {
        return Err(NoCurrentToken(index));
      }
      var kind := current.value.kind;
      if kind == STR {
        var token := Eat(STR);
        var text := token.value.value;
        if IsReserved(text) {
          return Err(ReservedWord(text));
        }
        return Ok(Str(text));
      } else if kind == TokenType.BOOL {
        var token := Eat(TokenType.BOOL);
        var text := token.value.value;
        if text == "true" {
          return Ok(Bool(true));
        } else if text == "false" {
          return Ok(Bool(false));
        }
        return Err(MalformedBool(text));
      } else if kind == NUM {
        r := ParseNum();
      } else if kind == TokenType.NULL {
        var token := Eat(TokenType.NULL);
        return Ok(Null);
      } else if kind == LBRACE {
        r := ParseDict();
      } else if kind == LBRACKET {
        r := ParseList();
      } else {
        return Err(UnexpectedToken(ValueStarts, kind, index));
      }
    }

    /** `parse_dict`: pairs separated by commas, each new key checked against `keys`. */
    method ParseDict() returns (r: Result<Value, ParseError>)
      requires Valid() && 0 <= index < |tokens| && tokens[index].kind == LBRACE
      modifies this
      ensures Valid() && index <= |tokens|
      ensures Agrees(r, index, PDict(tokens, floats, old(index)))
      decreases |tokens| - index, 0
    {
      ghost var goal := PDict(tokens, floats, index);
      ghost var start := index;
      var open := Eat(LBRACE);
      var dictionary: seq<(string, Value)> := [];
      var keys: seq<string> := [];
      var pair := ParsePair();
      DictOpen(tokens, floats, start, pair, index);
      if pair.Err? {
        return Err(pair.error);
      }
      if pair.value.Some? {
        dictionary := [pair.value.value];
        keys := [pair.value.value.0];
      }
      while current.Some? && current.value.kind == COMMA
        invariant Valid() && start < index <= |tokens|
        invariant keys == KeysOf(dictionary)
        invariant goal == DictLoop(tokens, floats, index, dictionary)
        decreases |tokens| - index
      {
        pair := CommaPair(dictionary);
        if pair.Err? {
          return Err(pair.error);
        }
        if pair.value.Some? {
          var entry := pair.value.value;
          if entry.0 in keys {
            return Err(DuplicateKey(entry.0));
          }
          dictionary := dictionary + [entry];
          keys := keys + [entry.0];
        }
      }
      r := CloseDict(dictionary);
    }

    /** One round of `parse_dict`'s loop: the comma, then the pair after it, and what that
        round makes of the loop with `entries` collected so far. */
    method CommaPair(ghost entries: seq<(string, Value)>) returns (pair: Result<Option<(string, Value)>, ParseError>)
      requires Valid() && 0 <= index < |tokens| && tokens[index].kind == COMMA
      modifies this
      ensures Valid() && index <= |tokens|
      ensures Agrees(pair, index, PPair(tokens, floats, old(index) + 1))
      ensures pair.Err? ==> DictLoop(tokens, floats, old(index), entries) == Err(pair.error)
      ensures pair.Ok? ==> old(index) < index
      ensures pair.Ok? && pair.value.None? ==>
        DictLoop(tokens, floats, old(index), entries) == DictLoop(tokens, floats, index, entries)
      ensures pair.Ok? && pair.value.Some? && pair.value.value.0 in KeysOf(entries) ==>
        DictLoop(tokens, floats, old(index), entries) == Err(DuplicateKey(pair.value.value.0))
      ensures pair.Ok? && pair.value.Some? && pair.value.value.0 !in KeysOf(entries) ==>
        KeysOf(entries + [pair.value.value]) == KeysOf(entries) + [pair.value.value.0] &&
        DictLoop(tokens, floats, old(index), entries) == DictLoop(tokens, floats, index, entries + [pair.value.value])
      decreases |tokens| - index, 0
    {
      ghost var before := index;
      var comma := Eat(COMMA);
      pair := ParsePair();
      DictStep(tokens, floats, before, entries, pair, index);
    }

    /** The end of `parse_dict`, once no comma follows: `}`, and a dictionary that is not
        empty. */
    method CloseDict(dictionary: seq<(string, Value)>) returns (r: Result<Value, ParseError>)
      requires Valid() && 0 <= index <= |tokens| && (current.None? || current.value.kind != COMMA)
      modifies this
      ensures Valid() && index <= |tokens|
      ensures Agrees(r, index, DictLoop(tokens, floats, old(index), dictionary))
    {
      if current.None? {
        return Err(NoCurrentToken(index));
      }
      DictLoopClose(tokens, floats, index, dictionary);
      var close := Eat(RBRACE);
      if close.Err? {
        return Err(close.error);
      }
      if |dictionary| == 0 {
        if current.None? {
          return Err(NoCurrentToken(index));
        }
        return Err(EmptyDictionary(index, current.value.kind));
      }
      return Ok(Dict(dictionary));
    }

    /** `parse_pair`: a key, `:` or `;`, and a value; no pair at `}` or `,`, and a `null`
        value when the separator or the value fails at `}`. */
    method ParsePair() returns (r: Result<Option<(string, Value)>, ParseError>)
      requires Valid() && 0 <= index <= |tokens|
      modifies this
      ensures Valid() && index <= |tokens|
      ensures Agrees(r, index, PPair(tokens, floats, old(index)))
      decreases |tokens| - index, 0
    {
      if current.None? {
        return Err(NoCurrentToken(index));
      }
      var key := current.value.value;
      var token := Eat(STR);
      if token.Err? {
        if CaughtAt(token.error, {RBRACE, COMMA}) {
          return Ok(None);
        }
        return Err(token.error);
      }
      if AllSpace(key) {
        return Err(EmptyKey(token.value.value));
      }
      if IsReserved(key) {
        return Err(ReservedWordAsKey(token.value.value));
      }
      var separator := Eat(COLON);
      if separator.Err? {
        separator := Eat(SEMICOLON);
      }
      var parsed: Result<Value, ParseError>;
      if separator.Err? {
        parsed := Err(separator.error);
      } else {
        parsed := ParseValue();
      }
      var value: Value;
      if parsed.Err? {
        if CaughtAt(parsed.error, {RBRACE}) {
          value := Null;
        } else {
          return Err(parsed.error);
        }
      } else {
        value := parsed.value;
      }
      return Ok(Some((key, value)));
    }

    /** `parse_list`: elements separated by commas, all of the type of the first one kept; an
        element that fails at `,` or `]` is skipped. */
    method ParseList() returns (r: Result<Value, ParseError>)
      requires Valid() && 0 <= index < |tokens| && tokens[index].kind == LBRACKET
      modifies this
      ensures Valid() && index <= |tokens|
      ensures Agrees(r, index, PList(tokens, floats, old(index)))
      decreases |tokens| - index, 0
    {
      ghost var start := index;
      var open := Eat(LBRACKET);
      var list: seq<Value> := [];
      var kind: Option<ValueType> := None;
      var first := ParseValue();
      if first.Ok? {
        list := [first.value];
        kind := Some(TypeOf(first.value));
      } else if !CaughtAt(first.error, {COMMA, RBRACKET}) {
        return Err(first.error);
      }
      while current.Some? && current.value.kind == COMMA
        invariant Valid() && start < index <= |tokens|
        invariant kind == (if list == [] then None else Some(TypeOf(list[0])))
        invariant PList(tokens, floats, start) == ListLoop(tokens, floats, index, list)
        decreases |tokens| - index
      {
        var element := CommaValue(list);
        if element.Ok? {
          list := list + [element.value];
          if kind.None? {
            kind := Some(TypeOf(element.value));
          } else if kind.value != TypeOf(element.value) {
            return Err(ListType(element.value));
          }
        } else if !CaughtAt(element.error, {COMMA, RBRACKET}) {
          return Err(element.error);
        }
      }
      r := CloseList(list);
    }

    /** One round of `parse_list`'s loop: the comma, then the value after it, and what that
        round makes of the loop with `items` collected so far. */
    method CommaValue(ghost items: seq<Value>) returns (element: Result<Value, ParseError>)
      requires Valid() && 0 <= index < |tokens| && tokens[index].kind == COMMA
      modifies this
      ensures Valid() && index <= |tokens|
      ensures Agrees(element, index, PValue(tokens, floats, old(index) + 1))
      ensures element.Ok? || CaughtAt(element.error, {COMMA, RBRACKET}) ==> old(index) < index
      ensures element.Err? && CaughtAt(element.error, {COMMA, RBRACKET}) ==>
        ListLoop(tokens, floats, old(index), items) == ListLoop(tokens, floats, index, items)
      ensures element.Err? && !CaughtAt(element.error, {COMMA, RBRACKET}) ==>
        ListLoop(tokens, floats, old(index), items) == Err(element.error)
      ensures element.Ok? && items != [] && TypeOf(element.value) != TypeOf(items[0]) ==>
        ListLoop(tokens, floats, old(index), items) == Err(ListType(element.value))
      ensures element.Ok? && (items == [] || TypeOf(element.value) == TypeOf(items[0])) ==>
        ListLoop(tokens, floats, old(index), items) == ListLoop(tokens, floats, index, items + [element.value]) &&
        (items + [element.value])[0] == if items == [] then element.value else items[0]
      decreases |tokens| - index, 0
    {
      ghost var before := index;
      var comma := Eat(COMMA);
      element := ParseValue();
      ListStep(tokens, floats, before, items, element, index);
    }

    /** The end of `parse_list`, once no comma follows: `]`, and a list that is not empty. */
    method CloseList(list: seq<Value>) returns (r: Result<Value, ParseError>)
      requires Valid() && 0 <= index <= |tokens| && (current.None? || current.value.kind != COMMA)
      modifies this
      ensures Valid() && index <= |tokens|
      ensures Agrees(r, index, ListLoop(tokens, floats, old(index), list))
    {
      if current.None? {
        return Err(NoCurrentToken(index));
      }
      ListLoopClose(tokens, floats, index, list);
      var close := Eat(RBRACKET);
      if close.Err? {
        return Err(close.error);
      }
      if |list| == 0 {
        if current.None? {
          return Err(NoCurrentToken(index));
        }
        return Err(EmptyList(index, current.value.kind));
      }
      return Ok(List(list));
    }

    /** `parse_num`: consume the number token and check and convert its lexeme. */
    method ParseNum() returns (r: Result<Value, ParseError>)
      requires Valid() && 0 <= index < |tokens| && tokens[index].kind == NUM
      modifies this
      ensures Valid() && index == old(index) + 1
      ensures r == NumberValue(tokens[old(index)].value, floats)
    {
      var token := Eat(NUM);
      var value := token.value.value;
      if |value| == 0 {
        return Err(MalformedNumber(value));
      }
      if value[0] == '.' || value[|value| - 1] == '.' {
        return Err(InvalidDecimal(value));
      }
      if value[0] == '+' || (|value| != 1 && value[0] == '0' && value[..2] != "0.") {
        return Err(InvalidNumber(value));
      }
      if 'e' in value {
        if !floats.converts(value) {
          return Err(MalformedNumber(value));
        }
        if floats.isIntegral(value) {
          return Ok(Int(floats.toInt(value)));
        }
        return Ok(Float(value));
      } else if '.' in value {
        if !floats.converts(value) {
          return Err(MalformedNumber(value));
        }
        return Ok(Float(value));
      }
      var n := IntLexeme(value);
      if n.None? {
        return Err(MalformedNumber(value));
      }
      return Ok(Int(n.value));
    }
  }

  /** The start of `parse_dict`, as `PDict` describes it: the `{` at `pos`, then the outcome
      `pair` of the first `parse_pair` with the cursor left at `next`. */
  lemma DictOpen(toks: seq<Token>, fm: FloatModel, pos: nat,
                 pair: Result<Option<(string, Value)>, ParseError>, next: int)
    requires pos < |toks| && toks[pos].kind == LBRACE
    requires Agrees(pair, next, PPair(toks, fm, pos + 1))
    ensures pair.Err? ==> PDict(toks, fm, pos) == Err(pair.error)
    ensures pair.Ok? ==> pos < next <= |toks|
    ensures pair.Ok? && pair.value.None? ==> PDict(toks, fm, pos) == DictLoop(toks, fm, next, [])
    ensures pair.Ok? && pair.value.Some? ==>
      KeysOf([pair.value.value]) == [pair.value.value.0] &&
      PDict(toks, fm, pos) == DictLoop(toks, fm, next, [pair.value.value])
  {
    if pair.Ok? && pair.value.Some? {
      KeysOfAppend([], pair.value.value);
    }
  }

  /** One round of `parse_dict`'s loop, as `DictLoop` describes it: the comma at `pos`, then
      the outcome `pair` of `parse_pair` with the cursor left at `next`. */
  lemma DictStep(toks: seq<Token>, fm: FloatModel, pos: nat, entries: seq<(string, Value)>,
                 pair: Result<Option<(string, Value)>, ParseError>, next: int)
    requires pos < |toks| && toks[pos].kind == COMMA
    requires Agrees(pair, next, PPair(toks, fm, pos + 1))
    ensures pair.Err? ==> DictLoop(toks, fm, pos, entries) == Err(pair.error)
    ensures pair.Ok? ==> pos < next <= |toks|
    ensures pair.Ok? && pair.value.None? ==> DictLoop(toks, fm, pos, entries) == DictLoop(toks, fm, next, entries)
    ensures pair.Ok? && pair.value.Some? && pair.value.value.0 in KeysOf(entries) ==>
      DictLoop(toks, fm, pos, entries) == Err(DuplicateKey(pair.value.value.0))
    ensures pair.Ok? && pair.value.Some? && pair.value.value.0 !in KeysOf(entries) ==>
      KeysOf(entries + [pair.value.value]) == KeysOf(entries) + [pair.value.value.0] &&
      DictLoop(toks, fm, pos, entries) == DictLoop(toks, fm, next, entries + [pair.value.value])
  {
    DictLoopComma(toks, fm, pos, entries);
    if pair.Ok? && pair.value.Some? {
      KeysOfAppend(entries, pair.value.value);
    }
  }

  /** One round of `parse_list`'s loop, as `ListLoop` describes it: the comma at `pos`, then
      the outcome `element` of `parse_value` with the cursor left at `next`. */
  lemma ListStep(toks: seq<Token>, fm: FloatModel, pos: nat, items: seq<Value>,
                 element: Result<Value, ParseError>, next: int)
    requires pos < |toks| && toks[pos].kind == COMMA
    requires Agrees(element, next, PValue(toks, fm, pos + 1))
    ensures element.Ok? || CaughtAt(element.error, {COMMA, RBRACKET}) ==> pos < next <= |toks|
    ensures element.Err? && CaughtAt(element.error, {COMMA, RBRACKET}) ==>
      ListLoop(toks, fm, pos, items) == ListLoop(toks, fm, next, items)
    ensures element.Err? && !CaughtAt(element.error, {COMMA, RBRACKET}) ==>
      ListLoop(toks, fm, pos, items) == Err(element.error)
    ensures element.Ok? && items != [] && TypeOf(element.value) != TypeOf(items[0]) ==>
      ListLoop(toks, fm, pos, items) == Err(ListType(element.value))
    ensures element.Ok? && (items == [] || TypeOf(element.value) == TypeOf(items[0])) ==>
      ListLoop(toks, fm, pos, items) == ListLoop(toks, fm, next, items + [element.value]) &&
      (items + [element.value])[0] == if items == [] then element.value else items[0]
  {
    ListLoopComma(toks, fm, pos, items);
  }

  /** Why a token-stream text gives no value: a line the reader cannot read, or a parse error. */
  datatype Failure = StreamFailure(stream: StreamError) | ParseFailure(parse: ParseError)

  /** What one input of the parser's driver gives: the tokens read from the text, parsed. */
  function ReadAndParse(input: string, fm: FloatModel): (r: Result<Value, Failure>)
    ensures r.Ok? ==> WellFormed(r.value)
    ensures r.Err? && r.error.StreamFailure? ==>
      Decode(input).Err? && r.error.stream.lineNumber < |SplitLines(input)|
  {
    match Decode(input)
    case Err(e) => Err(StreamFailure(e))
    case Ok(toks) =>
      match ParseTokens(toks, fm)
      case Err(e) => Err(ParseFailure(e))
      case Ok(v) => ParsedWellFormed(toks, fm); Ok(v)
  }

  /** `Parser(input).parse()`: read the tokens, then parse them. */
  method ParseText(input: string, floats: FloatModel) returns (r: Result<Value, Failure>)
    ensures r == ReadAndParse(input, floats)
    ensures r.Ok? ==> WellFormed(r.value)
    ensures var lines := SplitLines(input);
      '<' !in lines[|lines| - 1] && r.Err? && r.error.ParseFailure? ==> !r.error.parse.NoCurrentToken?
  {
    var toks := ReadTokens(input);
    if toks.Err? {
      return Err(StreamFailure(toks.error));
    }
    var lines := SplitLines(input);
    if '<' !in lines[|lines| - 1] {
      ReadStreamEnds(input);
    }
    var parser := new Parser(toks.value, floats);
    var value := parser.Parse();
    if value.Err? {
      return Err(ParseFailure(value.error));
    }
    ParsedWellFormed(toks.value, floats);
    return Ok(value.value);
  }

  /** When the last line of the text is not a token line, as after the line break that ends
      the scanner's output, the tokens read end with the EOF token, and it is the only one. */
  lemma ReadStreamEnds(input: string)
    requires Decode(input).Ok?
    requires var lines := SplitLines(input); '<' !in lines[|lines| - 1]
    ensures EofTerminated(Decode(input).value)
  {
    var lines := SplitLines(input);
    var read := ReadLines(lines);
    GatherStopsAtEof(read, lines, 0);
    GatherKeepsReads(read, lines, 0);
  }
}
