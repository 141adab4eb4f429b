/** `parse_num`: the checks on a number lexeme and its conversion to an integer or a float.
    Python's `float()` is not modelled; what the parser needs of it is a parameter. */
module Numbers {
  import opened Wrappers
  import opened Chars
  import opened Values
  import opened ParseErrors

  /** What `parse_num` asks of Python's floats: whether `float(s)` succeeds, whether the float
      it gives is integral (`is_integer()`), and `int(float(s))`. */
  datatype FloatModel = FloatModel(converts: string -> bool, isIntegral: string -> bool, toInt: string -> int)

  predicate AllDigits(s: string) {
    forall i :: 0 <= i < |s| ==> IsDigit(s[i])
  }

  /** The value of a string of decimal digits. */
  function DigitsValue(s: string): nat
    requires AllDigits(s)
  {
    if s == [] then 0 else 10 * DigitsValue(s[..|s| - 1]) + (s[|s| - 1] as int - '0' as int)
  }

  /** Python's `int(s)` on the characters a number token can hold: an optional minus sign and
      at least one digit; `None` where `int` raises `ValueError`. */
  function IntLexeme(s: string): (r: Option<int>)
    ensures r.Some? <==> (s != [] && AllDigits(s)) || (|s| > 1 && s[0] == '-' && AllDigits(s[1..]))
  {
    if s != [] && s[0] == '-' then
      if |s| > 1 && AllDigits(s[1..]) then Some(-(DigitsValue(s[1..]) as int)) else None
    else if s != [] && AllDigits(s) then Some(DigitsValue(s))
    else None
  }

  /** The first check of `parse_num`: a `.` at either end. */
  predicate BadDecimal(l: string)
    requires l != []
  {
    l[0] == '.' || l[|l| - 1] == '.'
  }

  /** The second check: a leading `+`, or a leading `0` that is neither the whole lexeme nor
      followed by `.`. */
  predicate BadNumber(l: string)
    requires l != []
  {
    l[0] == '+' || (|l| != 1 && l[0] == '0' && l[..2] != "0.")
  }

  /** The value `parse_num` makes of the lexeme `l`. An empty lexeme (possible only in a
      hand-written token stream) makes `value[0]` raise, reported as `MalformedNumber`.
      The decimal check comes first, then the number check, and a lexeme that passes both is
      an integer or a float that keeps the lexeme. */
  function NumberValue(l: string, fm: FloatModel): (r: Result<Value, ParseError>)
    ensures l != [] && BadDecimal(l) ==> r == Err(InvalidDecimal(l))
    ensures l != [] && !BadDecimal(l) && BadNumber(l) ==> r == Err(InvalidNumber(l))
    ensures r.Ok? ==> l != [] && !BadDecimal(l) && !BadNumber(l) && (r.value.Int? || r.value == Float(l))
  {
    if l == [] then Err(MalformedNumber(l))
    else if BadDecimal(l) then Err(InvalidDecimal(l))
    else if BadNumber(l) then Err(InvalidNumber(l))
    else if 'e' in l then
      if !fm.converts(l) then Err(MalformedNumber(l))
      else if fm.isIntegral(l) then Ok(Int(fm.toInt(l)))
      else Ok(Float(l))
    else if '.' in l then
      if fm.converts(l) then Ok(Float(l)) else Err(MalformedNumber(l))
    else
      match IntLexeme(l)
      case Some(n) => Ok(Int(n))
      case None => Err(MalformedNumber(l))
  }

  // ---------------------------------------------------------------- properties

  /** The classification: with `e`, an integer exactly when the float is integral; otherwise with
      `.`, always a float, even when integral (`1.0`); otherwise the exact decimal integer. */
  lemma NumberKinds(l: string, fm: FloatModel)
    requires l != [] && !BadDecimal(l) && !BadNumber(l)
    ensures 'e' in l && fm.converts(l) ==>
      NumberValue(l, fm) == if fm.isIntegral(l) then Ok(Int(fm.toInt(l))) else Ok(Float(l))
    ensures 'e' !in l && '.' in l && fm.converts(l) ==> NumberValue(l, fm) == Ok(Float(l))
    ensures 'e' !in l && '.' !in l && AllDigits(l) ==> NumberValue(l, fm) == Ok(Int(DigitsValue(l)))
    ensures 'e' !in l && '.' !in l && |l| > 1 && l[0] == '-' && AllDigits(l[1..]) ==>
      NumberValue(l, fm) == Ok(Int(-(DigitsValue(l[1..]) as int)))
  {
    if 'e' !in l && '.' !in l {
      if |l| > 1 && l[0] == '-' && AllDigits(l[1..]) {
        assert IntLexeme(l) == Some(-(DigitsValue(l[1..]) as int));
      } else if AllDigits(l) {
        assert IntLexeme(l) == Some(DigitsValue(l) as int);
      }
    }
  }

  lemma DigitCharValue(d: nat)
    requires d < 10
    ensures DigitChar(d) as int - '0' as int == d
  {
  }

  /** Reading digits back gives the number they were printed from. */
  lemma {:induction false} NatToStringValue(n: nat)
    ensures AllDigits(NatToString(n)) && DigitsValue(NatToString(n)) == n
    ensures NatToString(n)[0] == '0' ==> n == 0
  {
    var s := NatToString(n);
    if n < 10 {
      DigitCharValue(n);
    } else {
      NatToStringValue(n / 10);
      DigitCharValue(n % 10);
      assert s[..|s| - 1] == NatToString(n / 10);
    }
  }

  lemma DigitsPlain(s: string)
    requires AllDigits(s)
    ensures 'e' !in s && '.' !in s && '-' !in s && '+' !in s
  {
  }

  /** `str(n)` passes both checks of `parse_num`, holds neither `e` nor `.`, and reads back
      through `int()` as `n`. */
  lemma IntStringShape(n: int)
    ensures var l := IntToString(n);
      l != [] && !BadDecimal(l) && !BadNumber(l) && 'e' !in l && '.' !in l && IntLexeme(l) == Some(n)
  {
    var m := if n < 0 then -n else n;
    var digits := NatToString(m);
    NatToStringValue(m);
    DigitsPlain(digits);
    var l := IntToString(n);
    if n < 0 {
      assert l == "-" + digits && l[1..] == digits;
      assert l[|l| - 1] == digits[|digits| - 1];
      assert IntLexeme(l) == Some(-(m as int));
    } else {
      assert l == digits;
      if digits[0] == '0' {
        assert m == 0 && digits == [DigitChar(0)];
      }
      assert IntLexeme(l) == Some(m);
    }
  }

  /** `str(n)` read back by `parse_num` is `n` again, whatever the float model. */
  lemma IntRoundTrip(n: int, fm: FloatModel)
    ensures NumberValue(IntToString(n), fm) == Ok(Int(n))
  {
    IntStringShape(n);
  }

  /** A redundant leading zero is refused: `0` followed by a digit. */
  lemma LeadingZeroRejected(d: string, fm: FloatModel)
    requires d != [] && AllDigits(d)
    ensures NumberValue("0" + d, fm) == Err(InvalidNumber("0" + d))
  {
    var l := "0" + d;
    assert l[|l| - 1] == d[|d| - 1];
    assert l[0] == '0' && IsDigit(d[0]) && IsDigit(l[|l| - 1]);
    assert l[..2] == "0" + [d[0]] && l[..2][1] != '.';
  }

  /** Only the first character is looked at: behind a minus sign a leading zero goes through,
      and `-01` is the integer -1. */
  lemma NegativeLeadingZeroAccepted(fm: FloatModel)
    ensures NumberValue("-01", fm) == Ok(Int(-1))
  {
    assert "-01"[1..] == "01";
    assert DigitsValue("01") == 1 by {
      assert "01"[..1] == "0";
      assert "0"[..0] == "";
    }
  }
}
