/** Reading back what the scanner prints: every token whose value survives the line format is
    read back as itself, so a printed token sequence is read back whole. */
module StreamLemmas {
  import opened Wrappers
  import opened Chars
  import opened Tokens
  import opened ScannerSpec
  import opened TokenStream

  /** A token the line format carries unchanged. A number, string or boolean is printed with
      its value, which must hold no `<`, `>` or line break and must not start with whitespace
      (the reader strips it); every other token is read back from its value alone, so it must be
      one of the tokens the scanner makes of a punctuation character, `null` or the end. */
  predicate Transmissible(t: Token) {
    if PrintsType(t.kind) then
      '<' !in t.value && '>' !in t.value && '\n' !in t.value && (t.value == [] || !IsSpace(t.value[0]))
    else
      !t.kind.Other? && t.value == FixedText(t.kind)
  }

  /** The value the scanner gives each token kind other than numbers, strings and booleans. */
  function FixedText(k: TokenType): string {
    match k
    case COLON => ":"
    case SEMICOLON => ";"
    case COMMA => ","
    case LBRACE => "{"
    case RBRACE => "}"
    case LBRACKET => "["
    case RBRACKET => "]"
    case EOF => "EOF"
    case NULL => "null"
    case _ => ""
  }

  /** `FirstIndex` is the first position of `c`. */
  lemma FirstIndexIs(s: string, c: char, i: nat)
    requires i <= |s| && (i < |s| ==> s[i] == c) && forall k :: 0 <= k < i ==> s[k] != c
    ensures FirstIndex(s, c) == i
  {
  }

  /** The content of a line `<w>` is `w`, when `w` holds no angle bracket. */
  lemma ContentOf(w: string)
    requires '<' !in w && '>' !in w
    ensures LineContent("<" + w + ">") == Some(w)
  {
    var line := "<" + w + ">";
    FirstIndexIs(line, '<', 0);
    var rest := line[1..];
    assert rest == w + ">";
    FirstIndexIs(rest, '<', |rest|);
    assert rest[..|rest|] == rest;
    FirstIndexIs(rest, '>', |w|);
    assert rest[..|w|] == w;
  }

  /** The type names of numbers, strings and booleans hold no comma and no angle bracket. */
  lemma PrintedNamePlain(k: TokenType)
    requires PrintsType(k)
    ensures var name := TypeName(k);
      |name| > 0 && !IsSpace(name[0]) && ',' !in name && '<' !in name && '>' !in name
  {
  }

  /** The fields `name, value` make a token of the kind named `name`, with the value's
      leading whitespace stripped. */
  lemma NamedFields(name: string, v: string)
    requires |name| > 0 && !IsSpace(name[0]) && ',' !in name
    ensures ReadFields(name + ", " + v) == Some(Token(KindNamed(name), LStrip(v)))
  {
    assert name + ", " + v == name + [','] + (" " + v);
    SplitOnceJoin(name, ',', " " + v);
    LStripBlank(v);
  }

  /** `s.split(c, 1)` on `a c b`, where `a` holds no `c`, gives `a` and `b`. */
  lemma SplitOnceJoin(a: string, c: char, b: string)
    requires c !in a
    ensures SplitOnce(a + [c] + b, c) == [a, b]
  {
    var s := a + [c] + b;
    FirstIndexIs(s, c, |a|);
    assert s[..|a|] == a && s[|a| + 1..] == b;
  }

  lemma LStripBlank(v: string)
    ensures LStrip(" " + v) == LStrip(v)
  {
    assert (" " + v)[1..] == v;
  }

  lemma TypedFields(k: TokenType, v: string)
    requires PrintsType(k)
    ensures ReadFields(TypeName(k) + ", " + v) == Some(Token(k, LStrip(v)))
  {
    PrintedNamePlain(k);
    NamedFields(TypeName(k), v);
    KindNamedTypeName(k);
  }

  /** `<TYPE, value>` is the value's type name and the value between angle brackets. */
  lemma TypedRepr(k: TokenType, v: string)
    requires PrintsType(k) && '<' !in v && '>' !in v
    ensures var w := TypeName(k) + ", " + v;
      Repr(Token(k, v)) == "<" + w + ">" && '<' !in w && '>' !in w
  {
    PrintedNamePlain(k);
    assert "<" + TypeName(k) + ", " + v + ">" == "<" + (TypeName(k) + ", " + v) + ">";
  }

  /** A line printed as `<TYPE, value>` is read back with the value's leading whitespace
      stripped. */
  lemma TypedLine(k: TokenType, v: string)
    requires PrintsType(k) && '<' !in v && '>' !in v
    ensures TokenizeLine(Repr(Token(k, v))) == Some(Token(k, LStrip(v)))
  {
    TypedRepr(k, v);
    ContentOf(TypeName(k) + ", " + v);
    TypedFields(k, v);
  }

  /** Content without a comma is read by its value alone. */
  lemma PlainFields(v: string)
    requires ',' !in v && v != [] && !IsSpace(v[0])
    ensures ReadFields(v) == SingleToken(v)
  {
    FirstIndexIs(v, ',', |v|);
    assert v[..|v|] == v;
  }

  /** A token printed as `<value>` and read back from that value alone. */
  lemma PlainLine(t: Token)
    requires !PrintsType(t.kind) && '<' !in t.value && '>' !in t.value && ',' !in t.value
    requires t.value != [] && !IsSpace(t.value[0]) && SingleToken(t.value) == Some(t)
    ensures TokenizeLine(Repr(t)) == Some(t)
  {
    assert Repr(t) == "<" + t.value + ">";
    ContentOf(t.value);
    PlainFields(t.value);
  }

  /** The comma's line `<,>` splits into two empty halves, which are read as the comma. */
  lemma CommaLine()
    ensures TokenizeLine(Repr(Token(COMMA, ","))) == Some(Token(COMMA, ","))
  {
    assert Repr(Token(COMMA, ",")) == "<" + "," + ">";
    ContentOf(",");
    assert "" + [','] + "" == ",";
    SplitOnceJoin("", ',', "");
  }

  /** The tokens other than the comma that are read back from their value alone. */
  lemma PlainToken(t: Token)
    requires !PrintsType(t.kind) && Transmissible(t) && t.kind != COMMA
    ensures '<' !in t.value && '>' !in t.value && ',' !in t.value
    ensures t.value != [] && !IsSpace(t.value[0]) && SingleToken(t.value) == Some(t)
  {
  }

  /** A number, string or boolean whose value survives the format is read back as itself. */
  lemma TypedTokenLine(t: Token)
    requires PrintsType(t.kind) && Transmissible(t)
    ensures TokenizeLine(Repr(t)) == Some(t)
  {
    TypedLine(t.kind, t.value);
  }

  /** Every other token the format carries is read back as itself. */
  lemma UntypedTokenLine(t: Token)
    requires !PrintsType(t.kind) && Transmissible(t)
    ensures TokenizeLine(Repr(t)) == Some(t)
  {
    if t.kind == COMMA {
      CommaLine();
    } else {
      PlainToken(t);
      PlainLine(t);
    }
  }

  /** The reader gives back every token the line format carries. */
  lemma TokenizeLineRepr(t: Token)
    requires Transmissible(t)
    ensures TokenizeLine(Repr(t)) == Some(t)
  {
    if PrintsType(t.kind) {
      TypedTokenLine(t);
    } else {
      UntypedTokenLine(t);
    }
  }

  /** ... and drops the blanks a string value starts with: `" a"` comes back as `"a"`. */
  lemma LeadingBlanksLost(v: string)
    requires '<' !in v && '>' !in v && v != [] && IsSpace(v[0])
    ensures TokenizeLine(Repr(Token(STR, v))) == Some(Token(STR, LStrip(v))) && LStrip(v) != v
  {
    TypedLine(STR, v);
  }

  /** A line without `<`, the empty line among them, is not a token. */
  lemma EmptyLineRejected()
    ensures TokenizeLine("") == None
  {
  }

  /** The printed form of a token the format carries holds no line break. */
  lemma ReprOneLine(t: Token)
    requires Transmissible(t)
    ensures '\n' !in Repr(t)
  {
    if PrintsType(t.kind) {
      var name := TypeName(t.kind);
      var line := Repr(t);
      PrintedNamePlain(t.kind);
      assert line == "<" + name + ", " + t.value + ">";
      assert forall i :: 0 <= i < |line| ==>
        line[i] in "<" + name + ", " || line[i] in t.value || line[i] == '>';
    }
  }

  /** Splitting at a first line break that ends `line`. */
  lemma SplitLinesCons(line: string, rest: string)
    requires '\n' !in line
    ensures SplitLines(line + "\n" + rest) == [line] + SplitLines(rest)
  {
    var s := line + "\n" + rest;
    FirstIndexIs(s, '\n', |line|);
    assert s[..|line|] == line && s[|line| + 1..] == rest;
  }

  /** The first printed line of a token sequence is the first token's printed form. */
  lemma SerializeCons(ts: seq<Token>)
    requires |ts| > 0 && '\n' !in Repr(ts[0])
    ensures SplitLines(Serialize(ts)) == [Repr(ts[0])] + SplitLines(Serialize(ts[1..]))
  {
    SplitLinesCons(Repr(ts[0]), Serialize(ts[1..]));
  }

  /** The lines of a printed token sequence: one per token, then the empty line after the
      last line break. */
  lemma {:induction false} SerializedLines(ts: seq<Token>)
    requires forall i :: 0 <= i < |ts| ==> '\n' !in Repr(ts[i])
    ensures var lines := SplitLines(Serialize(ts));
      |lines| == |ts| + 1 && lines[|ts|] == "" && forall i :: 0 <= i < |ts| ==> lines[i] == Repr(ts[i])
  {
    if ts == [] {
      assert SplitLines("") == [""];
    } else {
      var rest := ts[1..];
      SerializedLines(rest);
      SerializeCons(ts);
      var tail := SplitLines(Serialize(rest));
      var lines := SplitLines(Serialize(ts));
      assert lines[|ts|] == tail[|rest|];
      forall i | 0 <= i < |ts|
        ensures lines[i] == Repr(ts[i])
      {
        if i > 0 {
          assert lines[i] == tail[i - 1] && rest[i - 1] == ts[i];
        }
      }
    }
  }

  /** The reader's loop, given one token per line up to the EOF token, returns them. */
  lemma {:induction false} GatherTokens(ts: seq<Token>, read: seq<Option<Token>>, lines: seq<string>, first: nat)
    requires EofTerminated(ts) && |read| == |lines| >= |ts|
    requires forall i :: 0 <= i < |ts| ==> read[i] == Some(ts[i])
    ensures Gather(read, lines, first) == Ok(ts)
  {
    assert read[0] == Some(ts[0]);
    if |ts| == 1 {
      assert Gather(read, lines, first) == Ok([ts[0]]);
      assert [ts[0]] == ts;
    } else {
      assert ts[0].kind != EOF;
      var rest := ts[1..];
      assert EofTerminated(rest);
      forall i | 0 <= i < |rest|
        ensures read[1..][i] == Some(rest[i])
      {
        assert read[1..][i] == read[i + 1];
      }
      GatherTokens(rest, read[1..], lines[1..], first + 1);
      assert [ts[0]] + rest == ts;
    }
  }

  /** A text whose first lines read as the tokens of `ts` is read as `ts`. */
  lemma DecodeOf(input: string, ts: seq<Token>)
    requires EofTerminated(ts)
    requires var lines := SplitLines(input);
      |lines| >= |ts| && forall i :: 0 <= i < |ts| ==> TokenizeLine(lines[i]) == Some(ts[i])
    ensures Decode(input) == Ok(ts)
  {
    var lines := SplitLines(input);
    GatherTokens(ts, ReadLines(lines), lines, 0);
  }

  /** Round trip of the token stream: what the scanner's driver writes for a token sequence
      ending in EOF, the parser's reader reads back as the same sequence. */
  lemma {:induction false} StreamRoundTrip(ts: seq<Token>)
    requires EofTerminated(ts) && forall i :: 0 <= i < |ts| ==> Transmissible(ts[i])
    ensures Decode(Serialize(ts)) == Ok(ts)
  {
    var input := Serialize(ts);
    PrintedLines(ts);
    DecodeOf(input, ts);
  }

  /** Each printed line reads back as its token. */
  lemma PrintedLines(ts: seq<Token>)
    requires forall i :: 0 <= i < |ts| ==> Transmissible(ts[i])
    ensures var lines := SplitLines(Serialize(ts));
      |lines| > |ts| && forall i :: 0 <= i < |ts| ==> TokenizeLine(lines[i]) == Some(ts[i])
  {
    forall i | 0 <= i < |ts|
      ensures '\n' !in Repr(ts[i]) && TokenizeLine(Repr(ts[i])) == Some(ts[i])
    {
      ReprOneLine(ts[i]);
      TokenizeLineRepr(ts[i]);
    }
    SerializedLines(ts);
  }

  /** The reader's tokens end with the one EOF token when the input goes on after it. */
  lemma DecodeEnds(input: string)
    requires Decode(input).Ok? && |Decode(input).value| < |SplitLines(input)|
    ensures EofTerminated(Decode(input).value)
  {
    var lines := SplitLines(input);
    GatherStopsAtEof(ReadLines(lines), lines, 0);
  }
}
