/** The layout the renderer produces: a value rendered at depth `d` never puts a line to the
    left of column `d`, and the value of a dictionary entry is rendered at the column just after
    its `key: `, so nested lines line up under the place where their value starts. */
module RenderLemmas {
  import opened Chars
  import opened Values

  predicate AllBlank(s: string) {
    forall k :: 0 <= k < |s| ==> s[k] == ' '
  }

  predicate NoBreak(s: string) {
    forall k :: 0 <= k < |s| ==> s[k] != '\n'
  }

  /** Every line break of `r`, except one that ends `r`, is followed by at least `d` blanks. */
  predicate Indented(r: string, d: nat) {
    forall i :: 0 <= i < |r| - 1 && r[i] == '\n' ==> i + d < |r| && AllBlank(r[i + 1..i + 1 + d])
  }

  /** No string, key or float lexeme inside `v` holds a line break of its own, and no float
      lexeme is empty (the parser only makes floats from non-empty numbers). */
  predicate BreakFree(v: Value)
    decreases v
  {
    match v
    case Str(t) => NoBreak(t)
    case Float(lexeme) => NoBreak(lexeme) && lexeme != []
    case List(items) => forall i :: 0 <= i < |items| ==> BreakFree(items[i])
    case Dict(entries) => forall i :: 0 <= i < |entries| ==> NoBreak(entries[i].0) && BreakFree(entries[i].1)
    case _ => true
  }

  lemma NoBreakIndented(r: string, d: nat)
    requires NoBreak(r)
    ensures Indented(r, d)
  {
  }

  /** Being indented by `d` implies being indented by anything smaller. */
  lemma IndentedWeaken(r: string, d: nat, e: nat)
    requires Indented(r, d) && e <= d
    ensures Indented(r, e)
  {
    forall i | 0 <= i < |r| - 1 && r[i] == '\n'
      ensures i + e < |r| && AllBlank(r[i + 1..i + 1 + e])
    {
      assert AllBlank(r[i + 1..i + 1 + d]);
      assert r[i + 1..i + 1 + e] == r[i + 1..i + 1 + d][..e];
    }
  }

  /** Two indented pieces make an indented whole when a break that ends the first piece is
      followed by enough blanks at the start of the second. */
  lemma IndentedConcat(a: string, b: string, d: nat)
    requires Indented(a, d) && Indented(b, d)
    requires |a| > 0 && a[|a| - 1] == '\n' && |b| > 0 ==> d <= |b| && AllBlank(b[..d])
    ensures Indented(a + b, d)
  {
    var r := a + b;
    forall i | 0 <= i < |r| - 1 && r[i] == '\n'
      ensures i + d < |r| && AllBlank(r[i + 1..i + 1 + d])
    {
      if i < |a| - 1 {
        assert a[i] == '\n';
        assert r[i + 1..i + 1 + d] == a[i + 1..i + 1 + d];
      } else if i == |a| - 1 {
        assert r[i + 1..i + 1 + d] == b[..d];
      } else {
        var j := i - |a|;
        assert b[j] == '\n' && j < |b| - 1;
        assert r[i + 1..i + 1 + d] == b[j + 1..j + 1 + d];
      }
    }
  }

  lemma NatToStringNoBreak(n: nat)
    ensures NoBreak(NatToString(n))
  {
    var r := NatToString(n);
    assert forall k :: 0 <= k < |r| ==> IsDigit(r[k]);
  }

  lemma SpacesBlank(n: nat)
    ensures AllBlank(Spaces(n)) && NoBreak(Spaces(n))
  {
  }

  /** A rendered value is indented by its depth, is not empty and does not end in a break. */
  lemma {:induction false} RenderIndented(v: Value, d: nat)
    requires BreakFree(v)
    ensures var r := Render(v, d); Indented(r, d) && |r| > 0 && r[|r| - 1] != '\n'
    decreases v, 1
  {
    var r := Render(v, d);
    match v
    case Int(n) =>
      NatToStringNoBreak(if n < 0 then -n else n);
      if n < 0 {
        assert NoBreak("-" + NatToString(-n));
      }
      NoBreakIndented(r, d);
    case Str(t) =>
      assert NoBreak(r);
      NoBreakIndented(r, d);
    case Float(lexeme) =>
      NoBreakIndented(r, d);
    case Bool(b) =>
      NoBreakIndented(r, d);
    case Null =>
      NoBreakIndented(r, d);
    case Dict(entries) =>
      var body := RenderEntries(v, entries, d);
      EntriesIndented(v, entries, d);
      Enclosed("{\n", body, d, "}");
    case List(items) =>
      var body := RenderItems(items, d);
      ItemsIndented(items, d);
      Enclosed("[\n", body, d, "]");
  }

  /** An opening line, a body whose lines start at `d`, and a closing line at `d`. */
  lemma Enclosed(open: string, body: string, d: nat, close: string)
    requires |open| == 2 && open[0] != '\n' && open[1] == '\n'
    requires |close| == 1 && close[0] != '\n'
    requires Indented(body, d)
    requires body != [] ==> d <= |body| && AllBlank(body[..d]) && body[|body| - 1] == '\n'
    ensures var r := open + body + Spaces(d) + close;
      Indented(r, d) && |r| > 0 && r[|r| - 1] != '\n'
  {
    var blanks := Spaces(d);
    SpacesBlank(d);
    assert blanks[..d] == blanks;
    NoBreakIndented(blanks, d);
    NoBreakIndented(close, d);
    IndentedConcat(open, body, d);
    var a := open + body;
    assert a[|a| - 1] == '\n';
    IndentedConcat(a, blanks, d);
    var b := a + blanks;
    if d == 0 {
      assert close[..d] == [];
    } else {
      assert b[|b| - 1] == ' ';
    }
    IndentedConcat(b, close, d);
    assert open + body + blanks + close == b + close;
  }

  /** The facts a body's tail brings: indented by `d`, and when not empty, starting with the
      indentation and ending with a break. */
  predicate BodyShaped(r: string, d: nat) {
    Indented(r, d) && (r != [] ==> d <= |r| && AllBlank(r[..d]) && r[|r| - 1] == '\n')
  }

  /** One line of a body: the indentation, a text without breaks, a value rendered no left of
      `e >= d`, a break. */
  lemma BodyLine(d: nat, pad: string, item: string, e: nat, rest: string)
    requires NoBreak(pad) && d <= e
    requires Indented(item, e) && |item| > 0 && item[|item| - 1] != '\n'
    requires BodyShaped(rest, d)
    ensures var r := Spaces(d) + pad + item + "\n" + rest;
      BodyShaped(r, d) && r != []
  {
    IndentedWeaken(item, e, d);
    SpacesBlank(d);
    var prefix := Spaces(d) + pad;
    assert NoBreak(prefix) by {
      assert forall k :: 0 <= k < |prefix| ==> prefix[k] == if k < d then Spaces(d)[k] else pad[k - d];
    }
    NoBreakIndented(prefix, d);
    assert Indented("\n", d);
    IndentedConcat(prefix, item, d);
    IndentedConcat(prefix + item, "\n", d);
    IndentedConcat(prefix + item + "\n", rest, d);
    var r := prefix + item + "\n" + rest;
    assert r[..d] == Spaces(d);
  }

  /** The text between the indentation and the value of a dictionary entry. */
  lemma KeyPad(key: string)
    requires NoBreak(key)
    ensures NoBreak("  " + key + ": ")
  {
    var pad := "  " + key + ": ";
    assert forall k :: 0 <= k < |pad| ==> pad[k] == if k < 2 then ' ' else if k < 2 + |key| then key[k - 2] else ": "[k - 2 - |key|];
  }

  /** The line of a dictionary entry whose value is rendered as `item` no left of `e >= d`,
      followed by the rest of the body. */
  lemma EntryText(d: nat, key: string, item: string, e: nat, rest: string)
    requires NoBreak(key) && d <= e
    requires Indented(item, e) && |item| > 0 && item[|item| - 1] != '\n'
    requires BodyShaped(rest, d)
    ensures var r := Spaces(d) + "  " + key + ": " + item + "\n" + rest;
      BodyShaped(r, d) && r != []
  {
    var pad := "  " + key + ": ";
    KeyPad(key);
    BodyLine(d, pad, item, e, rest);
    assert Spaces(d) + "  " + key + ": " + item + "\n" + rest == Spaces(d) + pad + item + "\n" + rest;
  }

  /** A dictionary body is indented by its depth, empty exactly when there are no entries,
      and otherwise starts with that indentation and ends with a break. */
  lemma {:induction false} EntriesIndented(parent: Value, entries: seq<(string, Value)>, d: nat)
    requires parent.Dict? && forall e :: e in entries ==> e in parent.entries
    requires forall i :: 0 <= i < |entries| ==> NoBreak(entries[i].0) && BreakFree(entries[i].1)
    ensures var r := RenderEntries(parent, entries, d);
      BodyShaped(r, d)
    decreases parent, 0, |entries|
  {
    if entries != [] {
      var key, child := entries[0].0, d + 4 + |entries[0].0|;
      assert entries[0] in parent.entries;
      EntriesIndented(parent, entries[1..], d);
      RenderIndented(entries[0].1, child);
      EntryText(d, key, Render(entries[0].1, child), child, RenderEntries(parent, entries[1..], d));
    }
  }

  /** A list body is indented by its depth, empty exactly when there are no elements, and
      otherwise starts with that indentation and ends with a break. */
  lemma {:induction false} ItemsIndented(items: seq<Value>, d: nat)
    requires forall i :: 0 <= i < |items| ==> BreakFree(items[i])
    ensures var r := RenderItems(items, d);
      BodyShaped(r, d)
    decreases items, 0
  {
    if items != [] {
      ItemsIndented(items[1..], d);
      RenderIndented(items[0], d + 2);
      BodyLine(d, "  ", Render(items[0], d + 2), d + 2, RenderItems(items[1..], d));
    }
  }
}
