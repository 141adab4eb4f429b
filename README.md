# A verified model of JSON_Parser_scanner

JSON_Parser_scanner is a two-stage pipeline for a strict JSON dialect.

- The **scanner** (`JsonScanner.py`) turns text into tokens with a cursor and one small automaton
  per literal kind. Its driver prints the tokens one per line as `<TYPE, value>` or `<value>`.
- The **parser** (`JsonParser.py`) reads those lines back (`Tokenizer`) and parses them by
  recursive descent (`Parser`), with one token of lookahead. It applies seven semantic checks and
  a few error recoveries, and builds a tree of `JSONValue`s that `recursive_print` renders as
  indented text.

This project models both stages in Dafny and proves properties of the model.

The code works by changing state step by step: the lexer's cursor, the recognizers' `while`
loops, the parser's `current_token`, and the loops of `parse_dict`, `parse_list` and the token
reader. That code is modelled as methods of the classes `JsonScanner.Lexer` and
`JsonParser.Parser`, plus the method `TokenStream.ReadTokens`. Each of them is proved equal to a
function:

- the scanner functions in `ScannerSpec`;
- the parser functions in `ParserSpec`;
- `TokenStream.Decode` for the reader.

The properties are proved about those functions:

- which lexemes each recognizer accepts and with which error it refuses the rest;
- the token stream's round trip through the printed format;
- that every parsed value passes the semantic checks at every depth;
- the indentation of the rendered text;
- worked examples (`Scenarios`). Most start from a token list; one follows the text `{"a": 1}`
  through the scanner and then the parser.

Exceptions become `Result` values. An error carries what the exception carries:

- the lexeme and the position, for the scanner;
- the expected kinds, the given kind and the token number, for `UnexpectedTokenError`.

The recoveries of `parse_pair` and `parse_list` are ordinary branches on the returned error.
Parsing goes on from the token at which the caught error was raised, however deep in a nested
value that was.

| file | module | what it holds |
|---|---|---|
| wrappers.dfy | Wrappers | `Option`, `Result` |
| chars.dfy | Chars | ASCII `isspace`/`isdigit`, `lstrip`, blanks |
| tokens.dfy | Tokens | `TokenType`, `Token`, `Token.__repr__` |
| scanner_spec.dfy | ScannerSpec | the scanner as functions of the text and a position |
| scanner_lemmas.dfy | ScannerLemmas | the languages of the automata, dispatch |
| scanner.dfy | JsonScanner | class `Lexer`, proved against `ScannerSpec` |
| token_stream.dfy | TokenStream | `tokenize_string`, the `Tokenizer` loop, the printed format |
| stream_lemmas.dfy | StreamLemmas | reading back printed tokens |
| pipeline.dfy | Pipeline | scanner output through the printed format into the reader |
| values.dfy | Values | `ValueType`, `JSONValue`, `recursive_print` |
| render_lemmas.dfy | RenderLemmas | the layout of rendered text |
| errors.dfy | ParseErrors | the parser's exceptions |
| numbers.dfy | Numbers | the checks and conversion of `parse_num` |
| parser_spec.dfy | ParserSpec | the parser as functions over the token list |
| parser_lemmas.dfy | ParserLemmas | every parsed value is well formed |
| parser.dfy | JsonParser | class `Parser`, proved against `ParserSpec` |
| scenarios.dfy | Scenarios | worked inputs |

## Behaviour of the code worth knowing

The model follows the code in each of these cases, including where a description of the dialect
would lead one to expect something else.

- `["true", 1]` fails with the reserved-word error, not with a list-type error.
  `parse_value` refuses the quoted `true` before the list compares types
  (`Scenarios.ReservedBeforeType`).
- `-01` is accepted as the integer -1. The leading-zero check looks only at the first character
  (`Numbers.NegativeLeadingZeroAccepted`). `01` and `+1` are refused.
- `1.0` is a float: a lexeme with `.` and no `e` is always a float. A lexeme with `e` is an
  integer exactly when its float value is integral (`Numbers.NumberKinds`).
- The missing-value recovery of `parse_pair` turns any unexpected `}` into a `null` value,
  including one met inside a nested list (`Scenarios.NestedNullRecovery`).
- `parse_list` drops any slot whose parse fails at `,` or `]`, including a nested one.
- The boolean automaton stops at the first letter it cannot take. `truee` is reported at
  position 4 as `true`. The null automaton reads on to the end of its letter run, so `nulll` is
  reported whole (`ScannerLemmas.ScanBoolRunOn`, `ScannerLemmas.NullRejections`).
- Input that ends in whitespace makes `get_next_token` call `isdigit` on `None`.
  `get_next_token` tests for the end of input only before it skips whitespace. The model reports
  this as the error `WhitespaceAtEnd` (`ScannerLemmas.TrailingWhitespace`). The scanner's driver
  strips its input, which avoids it.
- A key or string value does not always survive the printed token format.
  - Leading blanks are stripped by the reader.
  - A string holding `<` is cut at that `<`.
  - A `>` in a string also cuts it.
  - A line break in a string splits the line.

  `Pipeline.ScanPrintRead` states when the scanner's tokens do come back unchanged.
- `{}` and `[]` are refused only after the closing token has been eaten. The error names the
  token after it.

## Model

| member | source | states |
|---|---|---|
| JsonScanner.Lexer.constructor | JsonScanner.py:47-50 | a lexer over the empty input `''`, in the state `tokenize` would set up for it |
| JsonScanner.Lexer.Advance | JsonScanner.py:52-58 | the cursor moves by one and `current_char` is the character there, or `None` past the end |
| JsonScanner.Lexer.SkipWhiteSpace | JsonScanner.py:61-63 | the cursor ends at the end of the whitespace run that starts at it (`RunEnd`: first non-space or end of input) |
| ScannerSpec.RunEnd | JsonScanner.py:61-63 | the end of a run: every character before it qualifies and the one at it does not, or the input ended |
| ScannerSpec.SkipSpaces | JsonScanner.py:61-63 | the cursor passes over whitespace only, and stops at the end of input or on a non-space |
| ScannerSpec.ScanString | JsonScanner.py:66-102 | succeeds exactly when a closing quote follows; the token is the text strictly between the quotes (so holds no quote) and the cursor ends after the closing quote; otherwise `EndOfInputError` at the end of input with the text read |
| JsonScanner.Lexer.RecognizeString | JsonScanner.py:66-102 | the string automaton's loop computes what `ScanString` says, leaving the cursor there |
| ScannerSpec.ScanNum | JsonScanner.py:107-114 | the NUM token is the maximal run of digits, `+`, `-`, `.`, `e` from the cursor, with no validation |
| JsonScanner.Lexer.RecognizeNum | JsonScanner.py:107-114 | the loop reads exactly the run `ScanNum` describes |
| ScannerSpec.BoolEnd | JsonScanner.py:135-162 | where the boolean loop stops: end of input, a non-letter, or the letter the automaton rejects |
| ScannerLemmas.BoolAfterLanguage | JsonScanner.py:135-156 | each automaton state is reached by exactly one prefix of `true`/`false`; the final state exactly by `true` and `false` |
| ScannerLemmas.ScanBoolOnlyWords | JsonScanner.py:135-173 | the boolean recognizer succeeds only on a whole word `true` or `false` (then followed by a non-letter or the end); every failure is a `LexerError` |
| ScannerLemmas.ScanBoolWord | JsonScanner.py:135-173 | a whole word `true`/`false` gives that BOOL token and the cursor after it |
| ScannerLemmas.ScanBoolRunOn | JsonScanner.py:155-170 | a keyword followed by another letter of the set fails at the position after the keyword, reporting the keyword |
| ScannerLemmas.ScanBoolUnfinished | JsonScanner.py:155-170 | a proper prefix of a keyword not followed by its next letter fails at the position after the prefix, reporting the prefix |
| ScannerLemmas.BoolEndAt | JsonScanner.py:135-162 | along a prefix of a keyword the loop never rejects, and it stops right after that prefix when the next character cannot continue it |
| ScannerSpec.ScanBool | JsonScanner.py:118-173 | a token is BOOL, holds the non-empty text read from the cursor, and is followed by the end or a non-letter; a failure is a `LexerError` reporting the text from the cursor to where it is raised |
| JsonScanner.Lexer.RecognizeBool | JsonScanner.py:118-173 | the boolean automaton's loop, with its `break` on rejection, computes what `ScanBool` says |
| ScannerLemmas.NullAfterLanguage | JsonScanner.py:189-200 | the null automaton ends in its final state on `null` and on no other word; each other state on exactly one prefix |
| ScannerLemmas.ScanNullAccepts | JsonScanner.py:176-212 | the null recognizer succeeds exactly on a whole word `null`; otherwise a `LexerError` reporting the whole run of `n`/`u`/`l`, at its end |
| ScannerLemmas.NullRejections | JsonScanner.py:189-210 | `nul`, `nulll` and `nlul` fail, each reported whole at the position after it |
| ScannerSpec.ScanNull | JsonScanner.py:176-212 | a token is NULL, holds the non-empty text read from the cursor, and is followed by the end or a letter other than `n`/`u`/`l`; a failure is a `LexerError` raised at the end of that letter run, reporting the whole run |
| JsonScanner.Lexer.RecognizeNull | JsonScanner.py:176-212 | the null automaton's loop, which reads on after a rejection, computes what `ScanNull` says |
| ScannerSpec.TokenAt | JsonScanner.py:219-249 | a token found after the whitespace is not EOF and moves the cursor forward |
| ScannerSpec.NextToken | JsonScanner.py:215-251 | at the end of input the EOF token with value `EOF`; otherwise a token starts at a non-space character and the cursor strictly advances |
| ScannerLemmas.PunctuationToken | JsonScanner.py:219-247 | each of `{ } [ ] , : ;` is a token of its kind whose value is that character, and the cursor moves past it |
| ScannerLemmas.UnknownCharacter | JsonScanner.py:249 | a character that starts no token is a `LexerError` at its position reporting it |
| ScannerLemmas.TrailingWhitespace | JsonScanner.py:216-227 | input ending in whitespace fails at the end of input instead of giving EOF |
| JsonScanner.Lexer.GetNextToken | JsonScanner.py:215-251 | computes `NextToken` from the cursor |
| JsonScanner.Lexer.RecognizeToken | JsonScanner.py:219-249 | the dispatch after the whitespace computes `TokenAt` |
| ScannerSpec.TokenizeFrom | JsonScanner.py:259-264 | on success the tokens end with the EOF token and hold no other EOF token |
| ScannerSpec.Tokenize | JsonScanner.py:253-264 | on success the tokens end with the EOF token and hold no other EOF token |
| JsonScanner.TokenizeStep | JsonScanner.py:260-262 | one round of `tokenize`'s loop: the token appended, then the rest of the scan |
| JsonScanner.Lexer.Tokenize | JsonScanner.py:253-264 | the loop returns exactly `Tokenize(text)`, which ends with the one EOF token |
| Tokens.Repr | JsonScanner.py:23-27 | the printed form of a token is enclosed in `<` and `>` |
| Tokens.KindNamed | JsonParser.py:215-216 | the kind read back from a type name carries that name; a name of none of the twelve kinds stays a plain name |
| Tokens.KindNamedTypeName | JsonParser.py:215-216 | reading back the name of a kind gives that kind |
| TokenStream.SplitLines | JsonParser.py:156 | `split('\n')`: non-empty list of lines without breaks |
| TokenStream.SplitLinesJoin | JsonParser.py:156 | joining the lines with breaks gives the text back |
| TokenStream.SplitOnce | JsonParser.py:187 | `split(',', 1)`: the whole text, or the parts before and after the first comma, which rejoin to it |
| TokenStream.LineContent | JsonParser.py:185-186 | content exists exactly when the line holds `<`, and holds no angle bracket |
| TokenStream.SingleToken | JsonParser.py:194-213 | a token read from a value alone is one of the untyped kinds |
| TokenStream.ReadFields | JsonParser.py:187-216 | a content without a comma is read as a bare value by `SingleToken`; a content with a comma always gives a token |
| TokenStream.TokenizeLine | JsonParser.py:178-216 | a line without `<` is no token |
| StreamLemmas.EmptyLineRejected | JsonParser.py:185 | the empty line is not a token |
| StreamLemmas.TypedTokenLine | JsonParser.py:184-191 | a NUM/STR/BOOL token whose value has no `<`, `>`, break or leading blank reads back as itself |
| StreamLemmas.UntypedTokenLine | JsonParser.py:194-213 | every other token the scanner prints reads back as itself |
| StreamLemmas.CommaLine | JsonParser.py:194-201 | the comma's line `<,>` splits into two empty halves and reads back as the comma |
| StreamLemmas.TokenizeLineRepr | JsonParser.py:178-216 | `tokenize_string(repr(t))` is `t` for every token the format carries |
| StreamLemmas.LeadingBlanksLost | JsonParser.py:190-191 | a string value with leading whitespace comes back stripped, so changed |
| StreamLemmas.SplitOnceJoin | JsonParser.py:187 | splitting `a,b` where `a` has no comma gives `a` and `b` |
| TokenStream.Gather | JsonParser.py:161-175 | the reader keeps at most one token per line; an error names a line of the input |
| TokenStream.GatherStopsAtEof | JsonParser.py:172-173 | no token follows the first EOF token, and when lines were left over the tokens end with it |
| TokenStream.GatherKeepsReads | JsonParser.py:161-168 | each token returned is what its line was read as |
| TokenStream.GatherErrorLine | JsonParser.py:164-175 | an error names the first line that is not a token, with its 0-based number |
| TokenStream.GatherLine | JsonParser.py:161-175 | one round of the reader's loop |
| TokenStream.Decode | JsonParser.py:155-175 | the tokens read number at most the lines; an error gives the number of a line of the input and that line, and that line reads as no token |
| TokenStream.Serialize | JsonScanner.py:276-278 | a non-empty token list prints as text that ends in a line break |
| TokenStream.ReadTokens | JsonParser.py:155-175 | the reader's loop returns exactly `Decode(input)` |
| StreamLemmas.StreamRoundTrip | JsonParser.py:155-216 | what the scanner's driver prints for an EOF-terminated token list of carried tokens reads back as that list |
| StreamLemmas.DecodeEnds | JsonParser.py:161-175 | when lines remain after the last token read, the tokens end with the one EOF token |
| Pipeline.ScannedTokenCarried | JsonScanner.py:215-251 | every token the scanner makes, other than a string, is carried by the printed format |
| Pipeline.ScanPrintRead | JsonParser.py:155-216 | scanning, printing and reading back gives the scanner's tokens when its strings hold no angle bracket or break and do not start with whitespace |
| Pipeline.AngleBracketLost | JsonParser.py:185-186 | a string holding `<` comes back cut at its first `<` |
| Pipeline.StrLineCut | JsonParser.py:185-186 | the content the reader finds in such a line ends at that `<` |
| JsonParser.Parser.constructor | JsonParser.py:230-232 | a parser over the tokens read, before the first token |
| JsonParser.Parser.NextToken | JsonParser.py:219-224 | returns the current token and moves to the next, `None` past the last |
| JsonParser.Parser.Eat | JsonParser.py:243-248 | a token of the expected kind is returned and consumed; another kind is an unexpected-token error at that token, which stays current |
| ParserSpec.ParseTokens | JsonParser.py:253-257 | one value then EOF; on a scanner-made token list a value is returned only when it spans every token before EOF; the parser never runs past an EOF-ended list |
| JsonParser.Parser.Parse | JsonParser.py:253-257 | computes `ParseTokens` |
| ParserSpec.PValue | JsonParser.py:260-293 | `parse_value` consumes at least one token or fails with an error located at or after the cursor |
| JsonParser.Parser.ParseValue | JsonParser.py:260-293 | computes `PValue`, leaving the cursor where it says |
| ParserSpec.PDict | JsonParser.py:297-329 | `parse_dict` consumes tokens or fails with a located error |
| ParserSpec.DictLoop | JsonParser.py:309-329 | the dictionary loop consumes tokens or fails with a located error |
| JsonParser.DictOpen | JsonParser.py:298-306 | the first pair starts the dictionary's loop with that pair, or with nothing |
| JsonParser.DictStep | JsonParser.py:309-320 | one round of the loop: an error propagates, no pair changes nothing, a repeated key is a `DuplicateKeyError`, a new key is appended |
| JsonParser.Parser.CommaPair | JsonParser.py:309-320 | the comma and the pair after it, with what the round makes of the loop |
| JsonParser.Parser.CloseDict | JsonParser.py:322-329 | `}` is eaten, then an empty dictionary is an `EmptyDictionaryError` naming the next token |
| JsonParser.Parser.ParseDict | JsonParser.py:297-329 | the loop over `dictionary` and `keys` computes `PDict` |
| ParserSpec.PPair | JsonParser.py:332-372 | no pair leaves the cursor where it was; an error is located |
| ParserSpec.PairValue | JsonParser.py:358-366 | `:` or else `;` and then a value; otherwise an unexpected-token error naming `;` |
| ParserLemmas.NoPairExactly | JsonParser.py:338-344 | no pair exactly when the key's place holds `}` or `,`; a pair consumes its key and is keyed by it |
| JsonParser.Parser.ParsePair | JsonParser.py:332-372 | computes `PPair`, including the `null` recovery on `}` and the re-raise of other errors |
| ParserSpec.PList | JsonParser.py:375-387 | `parse_list` consumes tokens or fails with a located error |
| ParserSpec.ListLoop | JsonParser.py:389-411 | the list loop consumes tokens or fails with a located error |
| JsonParser.ListStep | JsonParser.py:389-403 | one round: a slot failing at `,`/`]` is skipped, another error propagates, a type mismatch is a `ListTypeError`, a value of the first element's type is appended |
| JsonParser.Parser.CommaValue | JsonParser.py:389-403 | the comma and the value after it, with what the round makes of the loop |
| JsonParser.Parser.CloseList | JsonParser.py:405-411 | `]` is eaten, then an empty list is an `EmptyListError` naming the next token |
| JsonParser.Parser.ParseList | JsonParser.py:375-411 | the loop over `list` and `type` computes `PList` |
| Numbers.IntLexeme | JsonParser.py:434 | `int()` succeeds exactly on an optional `-` followed by at least one digit |
| Numbers.NumberValue | JsonParser.py:413-434 | a `.` at either end is an invalid decimal, checked first; then a leading `+` or a redundant leading `0` is an invalid number; a result is an integer or the float of the lexeme |
| Numbers.NumberKinds | JsonParser.py:424-434 | with `e`: integer exactly when the float is integral; otherwise with `.`: float; otherwise the exact decimal integer, negative when the lexeme starts with `-` (`-0`, `-007`, `-5`) |
| Numbers.LeadingZeroRejected | JsonParser.py:421-422 | `0` followed by digits is an invalid number |
| Numbers.NegativeLeadingZeroAccepted | JsonParser.py:421 | `-01` passes both checks and is the integer -1 |
| Numbers.IntStringShape | JsonParser.py:417-434 | `str(n)` passes both checks, has no `e` or `.`, and `int()` reads it as `n` |
| Numbers.IntRoundTrip | JsonParser.py:118-119 | an integer printed by the renderer parses back as itself |
| JsonParser.Parser.ParseNum | JsonParser.py:413-434 | computes `NumberValue` of the eaten token |
| ParserLemmas.ValueWellFormed | JsonParser.py:260-293 | every value `parse_value` returns is well formed |
| ParserLemmas.DictWellFormed | JsonParser.py:297-329 | a dictionary is returned only non-empty, with distinct keys that are not blank or reserved, and well-formed values |
| ParserLemmas.DictLoopWellFormed | JsonParser.py:309-329 | the loop keeps the entries so far, in order, and keeps them valid |
| ParserLemmas.PairWellFormed | JsonParser.py:346-372 | a pair has a key that is not empty, blank or reserved, and a well-formed value |
| ParserLemmas.ListWellFormed | JsonParser.py:375-411 | a list is returned only non-empty, all elements of the first one's type and well formed |
| ParserLemmas.ListLoopWellFormed | JsonParser.py:389-411 | the loop keeps the elements so far, in order, and keeps them valid |
| ParserLemmas.ParsedWellFormed | JsonParser.py:253-257 | `parse` returns only values that pass every semantic check at every depth |
| JsonParser.ReadAndParse | JsonParser.py:230-257 | a value returned passes every semantic check at every depth; a failure of the reader names a line of the input |
| JsonParser.ParseText | JsonParser.py:230-257 | reading then parsing a text gives `ReadAndParse`; a value returned is well formed; a text ending like the scanner's output never runs the parser past the end |
| JsonParser.ReadStreamEnds | JsonParser.py:161-175 | when the last line holds no token, the tokens read end with the one EOF token |
| Values.Render | JsonParser.py:107-146 | a string is shown between double quotes; a dictionary starts with `{` and a line break and ends with `}`, a list likewise with `[` and `]`, each at least `depth+3` long; only a float (shown by its lexeme) can give empty text |
| Values.RenderEntries | JsonParser.py:130-137 | a dictionary body is empty exactly when there are no entries, and otherwise ends with a line break |
| Values.RenderItems | JsonParser.py:139-146 | a list body is empty exactly when there are no elements, and otherwise ends with a line break |
| RenderLemmas.RenderIndented | JsonParser.py:107-146 | a rendered value is non-empty, does not end in a break, and every line after the first starts with at least `depth` blanks |
| RenderLemmas.Enclosed | JsonParser.py:130-146 | an opening line, an indented body and the closing bracket at `depth` make an indented whole |
| RenderLemmas.EntriesIndented | JsonParser.py:130-137 | a non-empty dictionary body starts with `depth` blanks and ends with a break, and is indented by `depth` |
| RenderLemmas.EntryText | JsonParser.py:134-135 | an entry line `key: value`, the value rendered at `depth+4+len(key)`, keeps the body indented |
| RenderLemmas.ItemsIndented | JsonParser.py:139-146 | a non-empty list body starts with `depth` blanks and ends with a break, and is indented by `depth` |
| RenderLemmas.BodyLine | JsonParser.py:143 | a body line with its value rendered at `depth+2` keeps the body indented |
| Scenarios.OneEntry | JsonParser.py:297-329 | the tokens of `{"a": 1}` parse as the dictionary `a: 1` |
| Scenarios.ScanOneEntry | JsonScanner.py:215-264 | the scanner makes of the text `{"a": 1}` exactly those six tokens, EOF last |
| Scenarios.OneEntryDocument | JsonParser.py:253-257 | end to end: the text `{"a": 1}`, scanned and then parsed, is the dictionary `a: 1` |
| Scenarios.OneEntryRender | JsonParser.py:130-137 | that dictionary renders as `{`, `  a: 1`, `}` on three lines |
| Scenarios.TrailingComma | JsonParser.py:309-315 | the tokens of `{"a": 1,}` give the same dictionary |
| Scenarios.ReservedBeforeType | JsonParser.py:264-266 | the tokens of `["true", 1]` fail with the reserved-word error |
| Scenarios.MixedList | JsonParser.py:397-399 | the tokens of `["a", 1]` fail with a list-type error on `1` |
| Scenarios.ReservedKey | JsonParser.py:350-352 | the tokens of `{"true": 1}` fail with the reserved-key error |
| Scenarios.ReservedValue | JsonParser.py:264-266 | the tokens of `{"a": "true"}` fail with the reserved-word error |
| Scenarios.IntegralExponent | JsonParser.py:424-427 | the tokens of `[1e2]` give the list of the integer 100 |
| Scenarios.EmptyCollections | JsonParser.py:326-327 | the tokens of `{}` and of `[]` fail as empty, naming the EOF token after them |
| Scenarios.MissingValue | JsonParser.py:367-369 | the tokens of `{"a": }` give `a: null` |
| Scenarios.NestedNullRecovery | JsonParser.py:367-369 | the tokens of `{"a": [}` give `a: null` too |
| Scenarios.StrayCommas | JsonParser.py:382-403 | the tokens of `[,1,,2]` give the list of 1 and 2 |

## Left out

- Both `main` functions (file discovery, reading and writing files, tracebacks) are left out. The
  printed format the scanner's driver writes is kept as `TokenStream.Serialize`.
- Python's `float()`, `is_integer()` and `int(float())` are a parameter, `Numbers.FloatModel`,
  of three functions. A float value keeps its lexeme.
- Values.Render: a float is shown by its lexeme, not by Python's `str(float)` (`1.50` stays
  `1.50`).
- The text of exception messages is left out. Errors are a datatype of their kinds with their
  payloads.
- `Lexer.symbol_table` is written but never read, so it is left out.
- The first `Lexer.__init__` is left out, because the second one shadows it.
- JsonScanner.Lexer.constructor: the source leaves `position` unset and `current_char` as `''`
  until `tokenize` sets them. The model starts at position 0 with no current character. The
  scanner's driver calls `tokenize` first, which sets both.
- Chars.IsSpace: only the ASCII part of Python's Unicode `isspace`. The same holds for
  `Chars.IsDigit` and `isdigit`.
- Numbers.IntLexeme: does not model the forms `int()` also accepts, such as surrounding
  whitespace and `_` between digits. A number token from the scanner holds neither. A
  hand-written token stream could.
- JsonScanner.Lexer.RecognizeString: when the input ends right after the opening quote, the
  source reports `current_char`, which is `None` there. The model reports the empty text read
  so far. `ScannerSpec.ScanString` does the same.
- ParserSpec.PValue: a BOOL token whose text is neither `true` nor `false` can only come from a
  hand-written stream. `parse_value` then returns `None`, and what follows depends on where the
  token stands.
  - At the top level, `parse` returns `None` and the parser's driver writes `None`.
  - As a dictionary value, the parse also succeeds. Only `recursive_print` fails later.
  - In a list, `list[-1].type` raises `AttributeError` while parsing.

  The model turns all three into the error `MalformedBool`. That includes the two parses that
  succeed in the source.
- Numbers.NumberValue: an empty NUM lexeme (from a hand-written stream) makes `value[0]` raise.
  A lexeme that `float()` or `int()` refuses makes those raise. The model reports both as
  `MalformedNumber`.
- JsonParser.Parser.ParseValue: the source crashes with `AttributeError` when it reads
  `current_token` past the last token. The model reports `NoCurrentToken` there.
  `ParserSpec.ParseTokens` proves this cannot happen on a token list that ends with EOF.
- The `Tokenizer` object that the `Parser` holds is folded into `JsonParser.Parser`:
  - `index` is its `current_index`;
  - `tokens` is its token list;
  - the list is read before the parser is built (`JsonParser.ParseText`).
- TokenStream.TokenizeLine: the `IndexError` on a line without `<` and the `None` result are one
  outcome. The reader turns both into `TokenStreamError`.
- The reader's loop works on each line's reading, `TokenStream.ReadLines`. It is computed by the
  same function the loop calls, so nothing is lost.
- Several helpers are split out of the source's methods, each doing one step of the original:
  - `CommaPair` and `CloseDict` (from `parse_dict`);
  - `CommaValue` and `CloseList` (from `parse_list`);
  - `RecognizeToken` (from `get_next_token`).
