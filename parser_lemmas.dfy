/** What the parser's semantic checks guarantee: every value it returns is well formed. The
    proof follows the parser's own recursion, one lemma per function of `ParserSpec`. */
module ParserLemmas {
  import opened Wrappers
  import opened Chars
  import opened Tokens
  import opened Values
  import opened ParseErrors
  import opened Numbers
  import opened ParserSpec

  /** Entries a dictionary may hold so far: distinct valid keys and well-formed values. */
  predicate ValidEntries(entries: seq<(string, Value)>) {
    DistinctKeys(entries) &&
    forall i :: 0 <= i < |entries| ==> ValidKey(entries[i].0) && WellFormed(entries[i].1)
  }

  /** Elements a list may hold so far: all of the first one's type, all well-formed. */
  predicate ValidItems(items: seq<Value>) {
    forall i :: 0 <= i < |items| ==> TypeOf(items[i]) == TypeOf(items[0]) && WellFormed(items[i])
  }

  /** A pair with a new valid key and a well-formed value may join the entries. */
  lemma AddEntry(entries: seq<(string, Value)>, pair: (string, Value))
    requires ValidEntries(entries) && pair.0 !in KeysOf(entries) && ValidKey(pair.0) && WellFormed(pair.1)
    ensures ValidEntries(entries + [pair])
  {
    assert forall i :: 0 <= i < |entries| ==> entries[i].0 != pair.0;
  }

  /** A well-formed element of the first element's type may join the items. */
  lemma AddItem(items: seq<Value>, v: Value)
    requires ValidItems(items) && WellFormed(v) && (items != [] ==> TypeOf(v) == TypeOf(items[0]))
    ensures ValidItems(items + [v])
  {
  }

  lemma {:induction false} ValueWellFormed(toks: seq<Token>, fm: FloatModel, pos: nat)
    requires pos <= |toks| && PValue(toks, fm, pos).Ok?
    ensures WellFormed(PValue(toks, fm, pos).value.result)
    decreases |toks| - pos, 1
  {
    var t := toks[pos];
    if t.kind == LBRACE {
      DictWellFormed(toks, fm, pos);
    } else if t.kind == LBRACKET {
      ListWellFormed(toks, fm, pos);
    } else if t.kind == NUM {
      var v := NumberValue(t.value, fm).value;
      assert v.Int? || v.Float?;
    }
  }

  /** A dictionary is returned only with at least one entry, with distinct valid keys. */
  lemma {:induction false} DictWellFormed(toks: seq<Token>, fm: FloatModel, pos: nat)
    requires pos < |toks| && toks[pos].kind == LBRACE && PDict(toks, fm, pos).Ok?
    ensures var v := PDict(toks, fm, pos).value.result; v.Dict? && WellFormed(v)
    decreases |toks| - pos, 0
  {
    var first := PPair(toks, fm, pos + 1).value;
    if first.result.Some? {
      PairWellFormed(toks, fm, pos + 1);
    }
    DictLoopWellFormed(toks, fm, first.next, if first.result.Some? then [first.result.value] else []);
  }

  lemma {:induction false} DictLoopWellFormed(toks: seq<Token>, fm: FloatModel, pos: nat, entries: seq<(string, Value)>)
    requires pos <= |toks| && ValidEntries(entries) && DictLoop(toks, fm, pos, entries).Ok?
    ensures var v := DictLoop(toks, fm, pos, entries).value.result;
      v.Dict? && WellFormed(v) && entries <= v.entries
    decreases |toks| - pos, 0
  {
    if toks[pos].kind == COMMA {
      var step := PPair(toks, fm, pos + 1).value;
      if step.result.None? {
        DictLoopWellFormed(toks, fm, step.next, entries);
      } else {
        var pair := step.result.value;
        PairWellFormed(toks, fm, pos + 1);
        AddEntry(entries, pair);
        DictLoopWellFormed(toks, fm, step.next, entries + [pair]);
      }
    }
  }

  /** A pair is returned only with a valid key and a well-formed value. */
  lemma {:induction false} PairWellFormed(toks: seq<Token>, fm: FloatModel, pos: nat)
    requires pos <= |toks| && PPair(toks, fm, pos).Ok? && PPair(toks, fm, pos).value.result.Some?
    ensures var pair := PPair(toks, fm, pos).value.result.value; ValidKey(pair.0) && WellFormed(pair.1)
    decreases |toks| - pos, 0
  {
    if PairValue(toks, fm, pos + 1).Ok? {
      PairValueWellFormed(toks, fm, pos + 1);
    }
  }

  lemma {:induction false} PairValueWellFormed(toks: seq<Token>, fm: FloatModel, pos: nat)
    requires pos <= |toks| && PairValue(toks, fm, pos).Ok?
    ensures WellFormed(PairValue(toks, fm, pos).value.result)
    decreases |toks| - pos, 0
  {
    ValueWellFormed(toks, fm, pos + 1);
  }

  /** A list is returned only with at least one element, all of the first one's type. */
  lemma {:induction false} ListWellFormed(toks: seq<Token>, fm: FloatModel, pos: nat)
    requires pos < |toks| && toks[pos].kind == LBRACKET && PList(toks, fm, pos).Ok?
    ensures var v := PList(toks, fm, pos).value.result; v.List? && WellFormed(v)
    decreases |toks| - pos, 0
  {
    match PValue(toks, fm, pos + 1)
    case Ok(Parsed(v, p)) =>
      ValueWellFormed(toks, fm, pos + 1);
      ListLoopWellFormed(toks, fm, p, [v]);
    case Err(e) =>
      ListLoopWellFormed(toks, fm, e.index, []);
  }

  lemma {:induction false} ListLoopWellFormed(toks: seq<Token>, fm: FloatModel, pos: nat, items: seq<Value>)
    requires pos <= |toks| && ValidItems(items) && ListLoop(toks, fm, pos, items).Ok?
    ensures var v := ListLoop(toks, fm, pos, items).value.result;
      v.List? && WellFormed(v) && items <= v.items
    decreases |toks| - pos, 0
  {
    if toks[pos].kind == COMMA {
      match PValue(toks, fm, pos + 1)
      case Ok(Parsed(v, p)) =>
        ValueWellFormed(toks, fm, pos + 1);
        AddItem(items, v);
        ListLoopWellFormed(toks, fm, p, items + [v]);
      case Err(e) =>
        ListLoopWellFormed(toks, fm, e.index, items);
    }
  }

  /** `parse_pair` gives no pair exactly when the key's place holds `}` or `,`, and then the
      cursor stays on that token; a pair always consumes its key. */
  lemma NoPairExactly(toks: seq<Token>, fm: FloatModel, pos: nat)
    requires pos <= |toks|
    ensures var r := PPair(toks, fm, pos);
      (r.Ok? && r.value.result.None?) <==> pos < |toks| && (toks[pos].kind == RBRACE || toks[pos].kind == COMMA)
    ensures var r := PPair(toks, fm, pos);
      r.Ok? && r.value.result.None? ==> r.value.next == pos
    ensures var r := PPair(toks, fm, pos);
      r.Ok? && r.value.result.Some? ==> pos < r.value.next && toks[pos].kind == STR && r.value.result.value.0 == toks[pos].value
  {
  }

  /** `parse` returns only well-formed values: no reserved word as a string, no empty or
      mixed list, no empty dictionary, no repeated, empty or reserved key, at any depth. */
  lemma ParsedWellFormed(toks: seq<Token>, fm: FloatModel)
    requires ParseTokens(toks, fm).Ok?
    ensures WellFormed(ParseTokens(toks, fm).value)
  {
    ValueWellFormed(toks, fm, 0);
  }
}
