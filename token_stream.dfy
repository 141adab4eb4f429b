/** The token-stream format that connects the scanner to the parser: the scanner prints one
    token per line with `Token.__repr__`, and the parser's `Tokenizer` reads the lines back with
    `tokenize_string`. */
module TokenStream {
  import opened Wrappers
  import opened Chars
  import opened Tokens
  import opened ScannerSpec

  // ---------------------------------------------------------------- Python's str.split

  /** The index of the first `c` in `s`, or `|s|` when `s` holds none. */
  function FirstIndex(s: string, c: char): (i: nat)
    ensures i <= |s| && (i < |s| ==> s[i] == c)
    ensures forall k :: 0 <= k < i ==> s[k] != c
  {
    if s == [] || s[0] == c then 0 else 1 + FirstIndex(s[1..], c)
  }

  /** `s.split(c)[0]`: the text before the first `c`. */
  function Before(s: string, c: char): (r: string)
    ensures c !in r && r <= s
    ensures c in s ==> |r| < |s| && s[|r|] == c
  {
    s[..FirstIndex(s, c)]
  }

  /** `s.split(c, 1)`: the whole text, or the text before and after the first `c`. */
  function SplitOnce(s: string, c: char): (r: seq<string>)
    ensures c !in s ==> r == [s]
    ensures c in s ==> |r| == 2 && r[0] + [c] + r[1] == s && c !in r[0]
  {
    var i := FirstIndex(s, c);
    if i == |s| then [s]
    else
      assert s[..i] + [c] + s[i + 1..] == s;
      [s[..i], s[i + 1..]]
  }

  /** `s.split('\n')`: the lines of `s`, which joined with line breaks give back `s`. */
  function SplitLines(s: string): (r: seq<string>)
    ensures |r| > 0 && forall i :: 0 <= i < |r| ==> '\n' !in r[i]
    decreases |s|
  {
    var i := FirstIndex(s, '\n');
    if i == |s| then [s] else [s[..i]] + SplitLines(s[i + 1..])
  }

  /** The inverse of `SplitLines`. */
  function JoinLines(lines: seq<string>): string
    requires |lines| > 0
  {
    if |lines| == 1 then lines[0] else lines[0] + "\n" + JoinLines(lines[1..])
  }

  lemma {:induction false} SplitLinesJoin(s: string)
    ensures JoinLines(SplitLines(s)) == s
    decreases |s|
  {
    var i := FirstIndex(s, '\n');
    if i < |s| {
      var rest := s[i + 1..];
      SplitLinesJoin(rest);
      assert ([s[..i]] + SplitLines(rest))[1..] == SplitLines(rest);
      assert s == s[..i] + "\n" + rest;
    }
  }

  // ---------------------------------------------------------------- one line

  /** The tokens a line may stand for by its value alone (`<:>`, `<,>`, `<EOF>`, ...). The
      comma's line splits into two empty halves, which is why it is recognised by `""`. */
  function SingleToken(v: string): (r: Option<Token>)
    ensures r.Some? ==> !PrintsType(r.value.kind) && !r.value.kind.Other?
  {
    if v == ":" then Some(Token(COLON, v))
    else if v == ";" then Some(Token(SEMICOLON, v))
    else if v == "" then Some(Token(COMMA, ","))
    else if v == "{" then Some(Token(LBRACE, v))
    else if v == "}" then Some(Token(RBRACE, v))
    else if v == "[" then Some(Token(LBRACKET, v))
    else if v == "]" then Some(Token(RBRACKET, v))
    else if v == "EOF" then Some(Token(EOF, v))
    else if v == "null" then Some(Token(NULL, "null"))
    else None
  }

  /** The first step of `tokenize_string`: the text after the first `<`, up to the next `<` or
      `>`; `None` for a line without `<`, where the source raises `IndexError`. */
  function LineContent(line: string): (r: Option<string>)
    ensures r.Some? <==> '<' in line
    ensures r.Some? ==> '<' !in r.value && '>' !in r.value
  {
    var open := FirstIndex(line, '<');
    if open == |line| then None
    else Some(Before(Before(line[open + 1..], '<'), '>'))
  }

  /** The rest of `tokenize_string`: split the content at its first comma, strip leading
      whitespace from both halves, and make a token of them. */
  function ReadFields(content: string): (r: Option<Token>)
    ensures ',' !in content ==> r == SingleToken(LStrip(content))
    ensures ',' in content ==> r.Some?
  {
    var parts := SplitOnce(content, ',');
    var vals := if |parts| == 1 then [LStrip(parts[0])] else [LStrip(parts[0]), LStrip(parts[1])];
    if |vals| == 1 || (vals[0] == "" && vals[1] == "") then SingleToken(vals[0])
    else Some(Token(KindNamed(vals[0]), vals[1]))
  }

  /** `tokenize_string(line)`. `None` stands both for the source's `None` and for the
      `IndexError` of a line without `<`: the reader turns either into a `TokenStreamError`. */
  function TokenizeLine(line: string): (r: Option<Token>)
    ensures '<' !in line ==> r == None
  {
    match LineContent(line)
    case None => None
    case Some(content) => ReadFields(content)
  }

  // ---------------------------------------------------------------- the whole stream

  /** `TokenStreamError`: the line that could not be read and its 0-based number. */
  datatype StreamError = TokenStreamError(line: string, lineNumber: nat)

  /** The `Tokenizer` constructor's loop over `lines`, the first of which is line `first`,
      where `read[i]` is what `tokenize_string` makes of `lines[i]`: one token per line, up to
      and including the first EOF token. */
  function Gather(read: seq<Option<Token>>, lines: seq<string>, first: nat): (r: Result<seq<Token>, StreamError>)
    requires |read| == |lines|
    ensures r.Ok? ==> |r.value| <= |lines|
    ensures r.Err? ==> first <= r.error.lineNumber < first + |lines|
  {
    if read == [] then Ok([])
    else
      match read[0]
      case None => Err(TokenStreamError(lines[0], first))
      case Some(t) =>
        if t.kind == EOF then Ok([t]) else Prepend([t], Gather(read[1..], lines[1..], first + 1))
  }

  /** The reader keeps no token after the first EOF token, and when it did not use up every
      line, the tokens it returns end with that EOF token. */
  lemma {:induction false} GatherStopsAtEof(read: seq<Option<Token>>, lines: seq<string>, first: nat)
    requires |read| == |lines| && Gather(read, lines, first).Ok?
    ensures var ts := Gather(read, lines, first).value;
      (forall i :: 0 <= i < |ts| - 1 ==> ts[i].kind != EOF) &&
      (|ts| < |lines| ==> EofTerminated(ts))
  {
    if read != [] && read[0].value.kind != EOF {
      GatherStopsAtEof(read[1..], lines[1..], first + 1);
    }
  }

  /** Each token returned is what its line was read as. */
  lemma {:induction false} GatherKeepsReads(read: seq<Option<Token>>, lines: seq<string>, first: nat)
    requires |read| == |lines| && Gather(read, lines, first).Ok?
    ensures var ts := Gather(read, lines, first).value;
      forall i :: 0 <= i < |ts| ==> read[i] == Some(ts[i])
  {
    if read != [] && read[0].value.kind != EOF {
      GatherKeepsReads(read[1..], lines[1..], first + 1);
      var ts := Gather(read, lines, first).value;
      var rest := Gather(read[1..], lines[1..], first + 1).value;
      assert ts == [read[0].value] + rest;
      assert forall i :: 1 <= i < |ts| ==> ts[i] == rest[i - 1] && read[i] == read[1..][i - 1];
    }
  }

  /** An error names the first line that is not a token, with its number. */
  lemma {:induction false} GatherErrorLine(read: seq<Option<Token>>, lines: seq<string>, first: nat)
    requires |read| == |lines| && Gather(read, lines, first).Err?
    ensures var e := Gather(read, lines, first).error;
      first <= e.lineNumber < first + |lines| && e.line == lines[e.lineNumber - first] &&
      read[e.lineNumber - first] == None
  {
    if read[0].Some? {
      GatherErrorLine(read[1..], lines[1..], first + 1);
    }
  }

  /** What `tokenize_string` makes of each line. */
  function ReadLines(lines: seq<string>): (read: seq<Option<Token>>)
    ensures |read| == |lines| && forall i :: 0 <= i < |lines| ==> read[i] == TokenizeLine(lines[i])
  {
    seq(|lines|, i requires 0 <= i < |lines| => TokenizeLine(lines[i]))
  }

  /** The tokens the parser reads from the text `input`. */
  function Decode(input: string): (r: Result<seq<Token>, StreamError>)
    ensures r.Ok? ==> |r.value| <= |SplitLines(input)|
    ensures r.Err? ==>
      r.error.lineNumber < |SplitLines(input)| && r.error.line == SplitLines(input)[r.error.lineNumber]
      && ReadLines(SplitLines(input))[r.error.lineNumber].None?
  {
    DecodeErrorLine(SplitLines(input));
    Gather(ReadLines(SplitLines(input)), SplitLines(input), 0)
  }

  /** The reader's error on the lines of a text names one of them, which reads as no token. */
  lemma DecodeErrorLine(lines: seq<string>)
    ensures var r := Gather(ReadLines(lines), lines, 0); r.Err? ==>
      r.error.lineNumber < |lines| && r.error.line == lines[r.error.lineNumber]
      && ReadLines(lines)[r.error.lineNumber].None?
  {
    if Gather(ReadLines(lines), lines, 0).Err? {
      GatherErrorLine(ReadLines(lines), lines, 0);
    }
  }

  /** One line of the reader's loop: what the rest of the stream gives, after `tokens`, once
      line `index` has been read. */
  lemma GatherLine(tokens: seq<Token>, read: seq<Option<Token>>, lines: seq<string>, index: nat)
    requires |read| == |lines| && index < |lines|
    ensures read[index].None? ==>
      Prepend(tokens, Gather(read[index..], lines[index..], index)) == Err(TokenStreamError(lines[index], index))
    ensures read[index].Some? && read[index].value.kind == EOF ==>
      Prepend(tokens, Gather(read[index..], lines[index..], index)) == Ok(tokens + [read[index].value])
    ensures read[index].Some? && read[index].value.kind != EOF ==>
      Prepend(tokens, Gather(read[index..], lines[index..], index)) ==
      Prepend(tokens + [read[index].value], Gather(read[index + 1..], lines[index + 1..], index + 1))
  {
    assert read[index..][0] == read[index] && lines[index..][0] == lines[index];
    assert read[index..][1..] == read[index + 1..] && lines[index..][1..] == lines[index + 1..];
    if read[index].Some? && read[index].value.kind != EOF {
      var t := read[index].value;
      var rest := Gather(read[index + 1..], lines[index + 1..], index + 1);
      assert Gather(read[index..], lines[index..], index) == Prepend([t], rest);
      if rest.Ok? {
        assert tokens + ([t] + rest.value) == tokens + [t] + rest.value;
      }
    }
  }

  /** `Tokenizer.__init__`: read the stream line by line, stop after the EOF token, and report
      the first line that is not a token. */
  method ReadTokens(input: string) returns (r: Result<seq<Token>, StreamError>)
    ensures r == Decode(input)
  {
    var lines := SplitLines(input);
    ghost var read := ReadLines(lines);
    var tokens: seq<Token> := [];
    var index := 0;
    PrependNothing(Gather(read, lines, 0));
    assert read[0..] == read && lines[0..] == lines;
    while index < |lines|
      invariant 0 <= index <= |lines|
      invariant Decode(input) == Prepend(tokens, Gather(read[index..], lines[index..], index))
    {
      var token := TokenizeLine(lines[index]);
      GatherLine(tokens, read, lines, index);
      if token.None? {
        return Err(TokenStreamError(lines[index], index));
      }
      if token.value.kind == EOF {
        return Ok(tokens + [token.value]);
      }
      tokens := tokens + [token.value];
      index := index + 1;
    }
    assert read[index..] == [];
    assert Gather(read[index..], lines[index..], index) == Ok([]);
    assert tokens + [] == tokens;
    return Ok(tokens);
  }

  /** What `JsonScanner.main` writes: each token's printed form on a line of its own. */
  function Serialize(ts: seq<Token>): (r: string)
    ensures |ts| > 0 ==> |r| > 0 && r[|r| - 1] == '\n'
  {
    if ts == [] then "" else Repr(ts[0]) + "\n" + Serialize(ts[1..])
  }
}
