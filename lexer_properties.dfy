/**
 * What one dispatch step and a whole tokenizer run produce, case by case,
 * including the boundary behaviour at the end of the input.
 */
module LexerProperties {
  import opened Results
  import opened Lexer

  // ---------------------------------------------------------------------
  // Character classes and scans
  // ---------------------------------------------------------------------

  /** Digits continue identifiers but cannot start one; every identifier start continues one. */
  lemma CharClasses(c: char)
    ensures CharIsIdentifierStart(c) ==> CharIsIdentifier(c)
    ensures IsNumeric(c) ==> CharIsIdentifier(c) && !CharIsIdentifierStart(c)
    ensures CharIsIdentifier(c) <==> CharIsIdentifierStart(c) || IsNumeric(c)
  {
  }

  /** A scan stops at the first stop character and nowhere else. */
  lemma {:induction false} FindStopAt(s: string, from: nat, stop: Stop, e: nat)
    requires from <= e < |s| && Stops(stop, s[e])
    requires forall j | from <= j < e :: !Stops(stop, s[j])
    ensures FindStop(s, from, stop) == Some(e)
    decreases e - from
  {
    if from < e {
      FindStopAt(s, from + 1, stop, e);
    }
  }

  /** A scan over characters none of which stops it finds nothing. */
  lemma {:induction false} FindStopNone(s: string, from: nat, stop: Stop)
    requires forall j | from <= j < |s| :: !Stops(stop, s[j])
    ensures FindStop(s, from, stop) == None
    decreases |s| - from
  {
    if from < |s| {
      FindStopNone(s, from + 1, stop);
    }
  }

  /** A quote dispatches to the string-literal scan. */
  lemma ScanQuote(s: string, pos: nat)
    requires pos < |s| && (s[pos] == '"' || s[pos] == '\'')
    ensures Scan(s, pos) == ScanStringLiteral(s, pos)
  {
    assert s[pos] !in SingleCharacterKinds;
  }

  /** A digit dispatches to the integer-literal scan. */
  lemma ScanDigit(s: string, pos: nat)
    requires pos < |s| && IsNumeric(s[pos])
    ensures Scan(s, pos) == ScanIntegerLiteral(s, pos)
  {
    assert s[pos] !in SingleCharacterKinds;
  }

  /** A letter or underscore dispatches to the identifier scan. */
  lemma ScanIdentifierStart(s: string, pos: nat)
    requires pos < |s| && CharIsIdentifierStart(s[pos])
    ensures Scan(s, pos) == ScanIdentifierLiteral(s, pos)
  {
    assert s[pos] !in SingleCharacterKinds;
  }

  /** A run followed by a stop character at `e` leaves the cursor on `e - 1`. */
  lemma RunLastBeforeStop(s: string, pos: nat, stop: Stop, e: nat)
    requires pos < e < |s| && Stops(stop, s[e])
    requires forall j | pos < j < e :: !Stops(stop, s[j])
    ensures RunLast(s, pos, stop) == e - 1
  {
    FindStopAt(s, pos + 1, stop, e);
  }

  /** A run that reaches the end of the input leaves the cursor where it was. */
  lemma RunLastAtEnd(s: string, pos: nat, stop: Stop)
    requires pos < |s|
    requires forall j | pos < j < |s| :: !Stops(stop, s[j])
    ensures RunLast(s, pos, stop) == pos
  {
    FindStopNone(s, pos + 1, stop);
  }

  // ---------------------------------------------------------------------
  // Integer values
  // ---------------------------------------------------------------------

  function Pow10(n: nat): (r: nat)
    ensures r >= 1
  {
    if n == 0 then 1 else 10 * Pow10(n - 1)
  }

  /** A run of `n` digits denotes less than 10^n. */
  lemma {:induction false} DecimalValueBelowPow10(digits: string)
    requires AllNumeric(digits)
    ensures DecimalValue(digits) < Pow10(|digits|)
  {
    if digits != [] {
      DecimalValueBelowPow10(digits[..|digits| - 1]);
    }
  }

  /** Runs of at most nine digits always fit in an `i32`. */
  lemma ShortRunsFit(digits: string)
    requires AllNumeric(digits) && |digits| <= 9
    ensures DecimalValue(digits) <= I32_MAX
  {
    DecimalValueBelowPow10(digits);
    Pow10Monotone(|digits|, 9);
  }

  lemma {:induction false} Pow10Monotone(m: nat, n: nat)
    requires m <= n
    ensures Pow10(m) <= Pow10(n)
    decreases n
  {
    if m < n {
      Pow10Monotone(m, n - 1);
    }
  }

  /** Leading zeros do not change the value `str::parse` assigns. */
  lemma {:induction false} LeadingZero(digits: string)
    requires AllNumeric(digits)
    ensures AllNumeric(['0'] + digits) && DecimalValue(['0'] + digits) == DecimalValue(digits)
    decreases |digits|
  {
    var z := ['0'] + digits;
    if digits != [] {
      assert z[..|z| - 1] == ['0'] + digits[..|digits| - 1];
      LeadingZero(digits[..|digits| - 1]);
    }
  }

  /** The nine leading digits of the `i32` maximum. */
  lemma BoundaryPrefix()
    ensures AllNumeric("214748364") && DecimalValue("214748364") == 214748364
  {
    assert "214748364"[..8] == "21474836";
    assert "21474836"[..7] == "2147483";
    assert "2147483"[..6] == "214748";
    assert "214748"[..5] == "21474";
    assert "21474"[..4] == "2147";
    assert "2147"[..3] == "214";
    assert "214"[..2] == "21";
    assert "21"[..1] == "2";
    assert "2"[..0] == "";
  }

  /** The boundary of `i32`: its maximum parses, one more overflows. */
  lemma I32Boundary()
    ensures AllNumeric("2147483647") && DecimalValue("2147483647") == I32_MAX
    ensures AllNumeric("2147483648") && DecimalValue("2147483648") == I32_MAX + 1
  {
    BoundaryPrefix();
    assert "2147483647"[..9] == "214748364";
    assert "2147483648"[..9] == "214748364";
  }

  // ---------------------------------------------------------------------
  // One dispatch step, within a whole run
  // ---------------------------------------------------------------------

  /** Spaces and newlines yield no token and consume one character. */
  lemma BlankIsSkipped(s: string, pos: nat)
    requires pos < |s| && (s[pos] == ' ' || s[pos] == '\n')
    ensures Scan(s, pos) == Ok(Step(None, pos))
    ensures Lex(s, pos) == Lex(s, pos + 1)
  {
    LexContinues(s, pos);
    PrependNothing(Lex(s, pos + 1));
  }

  /** A source made only of spaces and newlines yields no token at all (there is no end marker). */
  lemma {:induction false} BlankSourceYieldsNothing(s: string, pos: nat)
    requires forall i | pos <= i < |s| :: s[i] == ' ' || s[i] == '\n'
    ensures Lex(s, pos) == Ok([])
    decreases |s| - pos
  {
    if pos < |s| {
      BlankIsSkipped(s, pos);
      BlankSourceYieldsNothing(s, pos + 1);
    }
  }

  /** Each of `( ) + - * / ;` yields one token of its kind and consumes one character. */
  lemma SingleCharacterTokens(s: string, pos: nat)
    requires pos < |s|
    ensures s[pos] == '(' ==> Lex(s, pos) == Prepend([Token(Lparen)], Lex(s, pos + 1))
    ensures s[pos] == ')' ==> Lex(s, pos) == Prepend([Token(Rparen)], Lex(s, pos + 1))
    ensures s[pos] == '+' ==> Lex(s, pos) == Prepend([Token(Plus)], Lex(s, pos + 1))
    ensures s[pos] == '-' ==> Lex(s, pos) == Prepend([Token(Minus)], Lex(s, pos + 1))
    ensures s[pos] == '*' ==> Lex(s, pos) == Prepend([Token(Asterisk)], Lex(s, pos + 1))
    ensures s[pos] == '/' ==> Lex(s, pos) == Prepend([Token(Slash)], Lex(s, pos + 1))
    ensures s[pos] == ';' ==> Lex(s, pos) == Prepend([Token(Semicolon)], Lex(s, pos + 1))
  {
    if Scan(s, pos).Ok? {
      LexContinues(s, pos);
    }
  }

  /**
   * `=` followed by `=` yields one `DoubleEquals` and consumes both;
   * followed by anything else it yields `Equals` and consumes one; as the
   * last character it panics reading past the end.
   */
  lemma EqualsSign(s: string, pos: nat)
    requires pos < |s| && s[pos] == '='
    ensures pos + 1 < |s| && s[pos + 1] == '=' ==> Lex(s, pos) == Prepend([Token(DoubleEquals)], Lex(s, pos + 2))
    ensures pos + 1 < |s| && s[pos + 1] != '=' ==> Lex(s, pos) == Prepend([Token(Equals)], Lex(s, pos + 1))
    ensures pos + 1 == |s| ==> Lex(s, pos) == Err(PanicCharOutOfRange(|s|))
  {
    if pos + 1 < |s| {
      LexContinues(s, pos);
    } else {
      LexStops(s, pos);
    }
  }

  /**
   * A string literal closed by the next quote of its own kind yields the
   * text strictly between the quotes and leaves the cursor on the closing
   * quote.
   */
  lemma StringLiteralToken(s: string, pos: nat, close: nat)
    requires pos < close < |s| && (s[pos] == '"' || s[pos] == '\'')
    requires s[close] == s[pos]
    requires forall j | pos < j < close :: s[j] != s[pos]
    ensures Scan(s, pos) == Ok(Step(Some(Token(StringLiteral(s[pos + 1 .. close]))), close))
    ensures Lex(s, pos) == Prepend([Token(StringLiteral(s[pos + 1 .. close]))], Lex(s, close + 1))
  {
    ScanQuote(s, pos);
    FindStopAt(s, pos + 1, QuoteChar(s[pos]), close);
    LexContinues(s, pos);
  }

  /** Two adjacent quotes of one kind yield the empty string. */
  lemma EmptyStringLiteral(s: string, pos: nat)
    requires pos + 1 < |s| && (s[pos] == '"' || s[pos] == '\'') && s[pos + 1] == s[pos]
    ensures Scan(s, pos) == Ok(Step(Some(Token(StringLiteral(""))), pos + 1))
  {
    StringLiteralToken(s, pos, pos + 1);
    assert s[pos + 1 .. pos + 1] == "";
  }

  /**
   * A quote never closed ends the run: with an exit for `"`, with a panic
   * for `'`.
   */
  lemma UnterminatedStringLiteral(s: string, pos: nat)
    requires pos < |s| && (s[pos] == '"' || s[pos] == '\'')
    requires forall j | pos < j < |s| :: s[j] != s[pos]
    ensures s[pos] == '"' ==> Lex(s, pos) == Err(ExitUnterminatedString)
    ensures s[pos] == '\'' ==> Lex(s, pos) == Err(PanicUnterminatedString)
  {
    ScanQuote(s, pos);
    FindStopNone(s, pos + 1, QuoteChar(s[pos]));
    LexStops(s, pos);
  }

  /**
   * A digit run followed by a non-digit at `end` yields the decimal value
   * of the whole run, or panics when that value exceeds `i32::MAX`.
   */
  lemma IntegerLiteralToken(s: string, pos: nat, end: nat)
    requires pos < end < |s| && !IsNumeric(s[end])
    requires forall j | pos <= j < end :: IsNumeric(s[j])
    ensures AllNumeric(s[pos .. end])
    ensures DecimalValue(s[pos .. end]) <= I32_MAX ==>
      Lex(s, pos) == Prepend([Token(IntegerLiteral(DecimalValue(s[pos .. end]) as i32))], Lex(s, end))
    ensures DecimalValue(s[pos .. end]) > I32_MAX ==>
      Lex(s, pos) == Err(PanicIntegerOverflow(s[pos .. end]))
  {
    assert forall i | 0 <= i < end - pos :: s[pos .. end][i] == s[pos + i];
    ScanDigit(s, pos);
    RunLastBeforeStop(s, pos, NonNumeric, end);
    if Scan(s, pos).Ok? {
      LexContinues(s, pos);
    } else {
      LexStops(s, pos);
    }
  }

  /** A digit run that reaches the end of the input yields only its first digit. */
  lemma IntegerRunAtEnd(s: string, pos: nat)
    requires pos < |s|
    requires forall j | pos <= j < |s| :: IsNumeric(s[j])
    ensures Scan(s, pos) == Ok(Step(Some(Token(IntegerLiteral(DigitValue(s[pos]) as i32))), pos))
  {
    ScanDigit(s, pos);
    RunLastAtEnd(s, pos, NonNumeric);
    var digits := s[pos .. pos + 1];
    assert digits == [s[pos]] && digits[..0] == [];
    assert DecimalValue(digits) == DigitValue(s[pos]);
  }

  function DigitTokens(digits: string): (r: seq<Token>)
    requires AllNumeric(digits)
    ensures |r| == |digits|
  {
    if digits == [] then []
    else [Token(IntegerLiteral(DigitValue(digits[0]) as i32))] + DigitTokens(digits[1..])
  }

  /** A source that ends in digits tokenizes them one digit per token. */
  lemma {:induction false} TrailingDigitsOneByOne(s: string, pos: nat)
    requires pos <= |s|
    requires forall j | pos <= j < |s| :: IsNumeric(s[j])
    ensures AllNumeric(s[pos..]) && Lex(s, pos) == Ok(DigitTokens(s[pos..]))
    decreases |s| - pos
  {
    if pos < |s| {
      IntegerRunAtEnd(s, pos);
      LexContinues(s, pos);
      TrailingDigitsOneByOne(s, pos + 1);
      assert s[pos..][1..] == s[pos + 1..];
    }
  }

  /**
   * An identifier run followed by a non-identifier character at `end`
   * yields the whole run and leaves the cursor on its last character.
   */
  lemma IdentifierToken(s: string, pos: nat, end: nat)
    requires pos < end < |s| && CharIsIdentifierStart(s[pos]) && !CharIsIdentifier(s[end])
    requires forall j | pos < j < end :: CharIsIdentifier(s[j])
    ensures Scan(s, pos) == Ok(Step(Some(Token(IdentifierLiteral(s[pos .. end]))), end - 1))
    ensures Lex(s, pos) == Prepend([Token(IdentifierLiteral(s[pos .. end]))], Lex(s, end))
  {
    ScanIdentifierStart(s, pos);
    RunLastBeforeStop(s, pos, NonIdentifier, end);
    LexContinues(s, pos);
  }

  /** An identifier run that reaches the end of the input yields only its first character. */
  lemma IdentifierRunAtEnd(s: string, pos: nat)
    requires pos < |s| && CharIsIdentifierStart(s[pos])
    requires forall j | pos < j < |s| :: CharIsIdentifier(s[j])
    ensures Scan(s, pos) == Ok(Step(Some(Token(IdentifierLiteral([s[pos]]))), pos))
    ensures Lex(s, pos) == Prepend([Token(IdentifierLiteral([s[pos]]))], Lex(s, pos + 1))
  {
    ScanIdentifierStart(s, pos);
    RunLastAtEnd(s, pos, NonIdentifier);
    assert s[pos .. pos + 1] == [s[pos]];
    LexContinues(s, pos);
  }

  /** A character none of the cases recognise. */
  predicate Unrecognised(c: char) {
    c !in "()+-*/;\n \"'=" && !IsNumeric(c) && !CharIsIdentifierStart(c)
  }

  /** An unrecognised character yields `Invalid` carrying it and consumes one character. */
  lemma InvalidCharacter(s: string, pos: nat)
    requires pos < |s| && Unrecognised(s[pos])
    ensures Lex(s, pos) == Prepend([Token(Invalid([s[pos]]))], Lex(s, pos + 1))
  {
    LexContinues(s, pos);
  }

  // ---------------------------------------------------------------------
  // Whole runs of two example sources
  //
  // Each example takes the source as a parameter constrained by `requires`
  // rather than as an inline literal, which keeps Dafny from unfolding the
  // literal character by character; each example is proved suffix by suffix.
  // ---------------------------------------------------------------------

  /** `x = 10;`, from its semicolon on. */
  lemma AssignmentExampleSemicolon(s: string)
    requires s == "x = 10;"
    ensures Lex(s, 6) == Ok([Token(Semicolon)])
  {
    assert Lex(s, 7) == Ok([]);
    assert s[6] == ';';
    SingleCharacterTokens(s, 6);
    assert [Token(Semicolon)] + [] == [Token(Semicolon)];
  }

  /** `x = 10;`, from its integer literal on. */
  lemma AssignmentExampleTail(s: string)
    requires s == "x = 10;"
    ensures Lex(s, 4) == Ok([Token(IntegerLiteral(10)), Token(Semicolon)])
  {
    AssignmentExampleSemicolon(s);
    IntegerLiteralToken(s, 4, 6);
    assert s[4 .. 6] == "10" && "10"[..1] == "1" && "1"[..0] == "";
    assert DecimalValue("10") == 10;
    assert Lex(s, 4) == Prepend([Token(IntegerLiteral(10))], Lex(s, 6));
    assert [Token(IntegerLiteral(10))] + [Token(Semicolon)] == [Token(IntegerLiteral(10)), Token(Semicolon)];
  }

  /** `x = 10;`, from the blank after its equals sign on. */
  lemma AssignmentExampleBlank(s: string)
    requires s == "x = 10;"
    ensures Lex(s, 3) == Ok([Token(IntegerLiteral(10)), Token(Semicolon)])
  {
    AssignmentExampleTail(s);
    assert s[3] == ' ';
    BlankIsSkipped(s, 3);
  }

  /** `x = 10;`, from its equals sign on. */
  lemma AssignmentExampleOperator(s: string)
    requires s == "x = 10;"
    ensures Lex(s, 2) == Ok([Token(Equals), Token(IntegerLiteral(10)), Token(Semicolon)])
  {
    AssignmentExampleBlank(s);
    assert s[2] == '=' && s[3] != '=';
    EqualsSign(s, 2);
    assert [Token(Equals)] + [Token(IntegerLiteral(10)), Token(Semicolon)] == [Token(Equals), Token(IntegerLiteral(10)), Token(Semicolon)];
  }

  /** `x = 10;` */
  lemma AssignmentExample(s: string)
    requires s == "x = 10;"
    ensures Lex(s, 0) == Ok([Token(IdentifierLiteral("x")), Token(Equals), Token(IntegerLiteral(10)), Token(Semicolon)])
  {
    AssignmentExampleOperator(s);
    BlankIsSkipped(s, 1);
    IdentifierToken(s, 0, 1);
    assert s[0 .. 1] == "x";
    assert Lex(s, 0) == Prepend([Token(IdentifierLiteral("x"))], Lex(s, 1));
    assert [Token(IdentifierLiteral("x"))] + [Token(Equals), Token(IntegerLiteral(10)), Token(Semicolon)]
        == [Token(IdentifierLiteral("x")), Token(Equals), Token(IntegerLiteral(10)), Token(Semicolon)];
  }

  /** `1 + 2 - 3`, from its last operand on: a digit at the very end. */
  lemma ArithmeticExampleLastOperand(s: string)
    requires s == "1 + 2 - 3"
    ensures Lex(s, 8) == Ok([Token(IntegerLiteral(3))])
  {
    TrailingDigitsOneByOne(s, 8);
    assert s[8..] == "3" && "3"[1..] == "";
    assert DigitTokens("3") == [Token(IntegerLiteral(3))];
  }

  /** `1 + 2 - 3`, from its second operator on. */
  lemma ArithmeticExampleLastOperator(s: string)
    requires s == "1 + 2 - 3"
    ensures Lex(s, 6) == Ok([Token(Minus), Token(IntegerLiteral(3))])
  {
    ArithmeticExampleLastOperand(s);
    BlankIsSkipped(s, 7);
    assert s[6] == '-';
    SingleCharacterTokens(s, 6);
    assert [Token(Minus)] + [Token(IntegerLiteral(3))] == [Token(Minus), Token(IntegerLiteral(3))];
  }

  /** `1 + 2 - 3`, from its second operand on. */
  lemma ArithmeticExampleTail(s: string)
    requires s == "1 + 2 - 3"
    ensures Lex(s, 4) == Ok([Token(IntegerLiteral(2)), Token(Minus), Token(IntegerLiteral(3))])
  {
    ArithmeticExampleLastOperator(s);
    BlankIsSkipped(s, 5);
    IntegerLiteralToken(s, 4, 5);
    assert s[4 .. 5] == "2" && "2"[..0] == "";
    assert Lex(s, 4) == Prepend([Token(IntegerLiteral(2))], Lex(s, 5));
    assert [Token(IntegerLiteral(2))] + [Token(Minus), Token(IntegerLiteral(3))] == [Token(IntegerLiteral(2)), Token(Minus), Token(IntegerLiteral(3))];
  }

  /** `1 + 2 - 3`, from its first operator on. */
  lemma ArithmeticExampleOperator(s: string)
    requires s == "1 + 2 - 3"
    ensures Lex(s, 2) == Ok([Token(Plus), Token(IntegerLiteral(2)), Token(Minus), Token(IntegerLiteral(3))])
  {
    ArithmeticExampleTail(s);
    BlankIsSkipped(s, 3);
    assert s[2] == '+';
    SingleCharacterTokens(s, 2);
    assert [Token(Plus)] + [Token(IntegerLiteral(2)), Token(Minus), Token(IntegerLiteral(3))]
        == [Token(Plus), Token(IntegerLiteral(2)), Token(Minus), Token(IntegerLiteral(3))];
  }

  /** `1 + 2 - 3` */
  lemma ArithmeticExample(s: string)
    requires s == "1 + 2 - 3"
    ensures Lex(s, 0) == Ok([Token(IntegerLiteral(1)), Token(Plus), Token(IntegerLiteral(2)), Token(Minus), Token(IntegerLiteral(3))])
  {
    ArithmeticExampleOperator(s);
    BlankIsSkipped(s, 1);
    IntegerLiteralToken(s, 0, 1);
    assert s[0 .. 1] == "1" && "1"[..0] == "";
    assert Lex(s, 0) == Prepend([Token(IntegerLiteral(1))], Lex(s, 1));
    assert [Token(IntegerLiteral(1))] + [Token(Plus), Token(IntegerLiteral(2)), Token(Minus), Token(IntegerLiteral(3))]
        == [Token(IntegerLiteral(1)), Token(Plus), Token(IntegerLiteral(2)), Token(Minus), Token(IntegerLiteral(3))];
  }
}
