/** The parser's value tree (`ValueType` and `JSONValue` of JsonParser.py) and its indented
    text form (`JSONValue.recursive_print`). */
module Values {
  import opened Chars

  datatype ValueType = STRING | INT | FLOAT | LIST | DICTIONARY | BOOL | NULL

  /** A parsed value. A float keeps the lexeme it was read from; dictionary entries keep the
      order in which their keys first appeared. */
  datatype Value =
    | Str(text: string)
    | Int(n: int)
    | Float(lexeme: string)
    | Bool(b: bool)
    | Null
    | List(items: seq<Value>)
    | Dict(entries: seq<(string, Value)>)

  function TypeOf(v: Value): ValueType {
    match v
    case Str(_) => STRING
    case Int(_) => INT
    case Float(_) => FLOAT
    case Bool(_) => BOOL
    case Null => NULL
    case List(_) => LIST
    case Dict(_) => DICTIONARY
  }

  /** A key the parser accepts: not empty, not only whitespace, not a reserved word. */
  predicate ValidKey(k: string) {
    !AllSpace(k) && !IsReserved(k)
  }

  predicate DistinctKeys(entries: seq<(string, Value)>) {
    forall i, j :: 0 <= i < j < |entries| ==> entries[i].0 != entries[j].0
  }

  /** The invariants the parser's semantic checks establish on every value it returns:
      no quoted string is a reserved word; lists are non-empty and all their elements have
      the type of the first; dictionaries are non-empty, with distinct valid keys. */
  predicate WellFormed(v: Value)
    decreases v
  {
    match v
    case Str(t) => !IsReserved(t)
    case List(items) =>
      |items| > 0 &&
      forall i :: 0 <= i < |items| ==> TypeOf(items[i]) == TypeOf(items[0]) && WellFormed(items[i])
    case Dict(entries) =>
      |entries| > 0 && DistinctKeys(entries) &&
      forall i :: 0 <= i < |entries| ==> ValidKey(entries[i].0) && WellFormed(entries[i].1)
    case _ => true
  }

  // ---------------------------------------------------------------- rendering

  function DigitChar(d: nat): (c: char)
    requires d < 10
    ensures IsDigit(c)
  {
    "0123456789"[d]
  }

  /** Python's `str(n)` for a natural number. */
  function NatToString(n: nat): (r: string)
    ensures |r| > 0 && forall i :: 0 <= i < |r| ==> IsDigit(r[i])
  {
    if n < 10 then [DigitChar(n)] else NatToString(n / 10) + [DigitChar(n % 10)]
  }

  /** Python's `str(i)` for an integer. */
  function IntToString(i: int): string {
    if i < 0 then "-" + NatToString(-i) else NatToString(i)
  }

  /** `recursive_print(depth)`. A float is shown by its lexeme. */
  function Render(v: Value, depth: nat): (r: string)
    ensures v.Str? ==> |r| == |v.text| + 2 && r[0] == '"' && r[|r| - 1] == '"'
    ensures v.Dict? ==> |r| >= depth + 3 && r[..2] == "{\n" && r[|r| - 1] == '}'
    ensures v.List? ==> |r| >= depth + 3 && r[..2] == "[\n" && r[|r| - 1] == ']'
    ensures !v.Float? ==> |r| > 0
    decreases v, 1
  {
    match v
    case Bool(b) => if b then "true" else "false"
    case Float(lexeme) => lexeme
    case Int(n) => IntToString(n)
    case Str(t) => "\"" + t + "\""
    case Null => "null"
    case Dict(entries) => "{\n" + RenderEntries(v, entries, depth) + Spaces(depth) + "}"
    case List(items) => "[\n" + RenderItems(items, depth) + Spaces(depth) + "]"
  }

  /** The body of a dictionary: one line per entry, the value indented past its key.
      `parent` is the dictionary the entries belong to; it only serves the termination proof. */
  function RenderEntries(ghost parent: Value, entries: seq<(string, Value)>, depth: nat): (r: string)
    requires parent.Dict? && forall e :: e in entries ==> e in parent.entries
    ensures r == [] <==> entries == []
    ensures entries != [] ==> r[|r| - 1] == '\n'
    decreases parent, 0, |entries|
  {
    if entries == [] then ""
    else
      var key := entries[0].0;
      assert entries[0] in parent.entries;
      Spaces(depth) + "  " + key + ": " + Render(entries[0].1, depth + 4 + |key|) + "\n"
      + RenderEntries(parent, entries[1..], depth)
  }

  /** The body of a list: one line per element, two blanks deeper. */
  function RenderItems(items: seq<Value>, depth: nat): (r: string)
    ensures r == [] <==> items == []
    ensures items != [] ==> r[|r| - 1] == '\n'
    decreases items, 0
  {
    if items == [] then ""
    else Spaces(depth) + "  " + Render(items[0], depth + 2) + "\n" + RenderItems(items[1..], depth)
  }
}
