/**
 * The tokenizer of the interpreter front end: token kinds, the character
 * classes, a reference definition of one dispatch step (`Scan`) and of a
 * whole run (`Lex`), and the cursor-driven `Tokenizer` class proved
 * against them.
 *
 * The source text is taken to be ASCII.  On ASCII text Rust's byte length
 * equals the character count used by `chars().nth`, byte slices equal
 * character slices, and `char::is_numeric` holds exactly of '0'..'9'.
 */
module Lexer {
  import opened Results

  /** Rust's `i32`. */
  newtype i32 = x: int | -0x8000_0000 <= x < 0x8000_0000

  const I32_MAX: int := 0x7FFF_FFFF

  datatype TokenType =
    // Literals
    | IdentifierLiteral(name: string)
    | IntegerLiteral(value: i32)
    | StringLiteral(text: string)
    // Arithmetic operators
    | Plus
    | Minus
    | Asterisk
    | Slash
    // Logical operators
    | Equals
    | DoubleEquals
    // Grouping operators
    | Lparen
    | Rparen
    // Punctuation
    | Semicolon
    // Unknown token
    | Invalid(symbol: string)

  datatype Token = Token(kind: TokenType)

  /** The ways a call into the tokenizer ends the process instead of returning. */
  datatype LexFailure =
    | ExitUnterminatedString                 // `"` never closed: message on stderr, exit status 1
    | PanicUnterminatedString                // `'` never closed: `unwrap` of `None`
    | PanicCharOutOfRange(index: nat)        // `get_char` past the end: `unwrap` of `None`
    | PanicIntegerOverflow(digits: string)   // digit run above `i32::MAX`: `unwrap` of a parse error

  /**
   * The effect of one `next_token` call: the token it yields (`None` for
   * ignored characters) and the cursor it leaves, which is the index of
   * the LAST character of the lexeme.
   */
  datatype Step = Step(token: Option<Token>, last: nat)

  predicate IsAscii(s: string) {
    forall i | 0 <= i < |s| :: s[i] as int < 128
  }

  // ---------------------------------------------------------------------
  // Character classes
  // ---------------------------------------------------------------------

  /** `char::is_numeric`, restricted to ASCII. */
  predicate IsNumeric(c: char) {
    '0' <= c <= '9'
  }

  predicate IsAsciiAlphabetic(c: char) {
    'a' <= c <= 'z' || 'A' <= c <= 'Z'
  }

  /** `char_is_identfier_start`. */
  predicate CharIsIdentifierStart(c: char) {
    IsAsciiAlphabetic(c) || c == '_'
  }

  /** `char_is_identifier`. */
  predicate CharIsIdentifier(c: char) {
    IsAsciiAlphabetic(c) || IsNumeric(c) || c == '_'
  }

  /** The character that ends a lookahead scan. */
  datatype Stop = QuoteChar(quote: char) | NonIdentifier | NonNumeric

  predicate Stops(stop: Stop, c: char) {
    match stop
    case QuoteChar(q) => c == q
    case NonIdentifier => !CharIsIdentifier(c)
    case NonNumeric => !IsNumeric(c)
  }

  // ---------------------------------------------------------------------
  // Reference definitions
  // ---------------------------------------------------------------------

  /** The index of the first character at or after `from` that ends the scan. */
  function FindStop(s: string, from: nat, stop: Stop): (r: Option<nat>)
    decreases |s| - from
    ensures r.Some? ==> from <= r.value < |s| && Stops(stop, s[r.value])
    ensures r.Some? ==> forall j | from <= j < r.value :: !Stops(stop, s[j])
    ensures r.None? ==> forall j | from <= j < |s| :: !Stops(stop, s[j])
  {
    if from >= |s| then None
    else if Stops(stop, s[from]) then Some(from)
    else FindStop(s, from + 1, stop)
  }

  /**
   * Where a run scanner leaves the cursor: just before the first stop
   * character after `pos`, or on `pos` itself when no stop character
   * follows (the scanner's `skip` stays 0).
   */
  function RunLast(s: string, pos: nat, stop: Stop): (last: nat)
    requires pos < |s|
    ensures pos <= last < |s|
    ensures forall j | pos < j <= last :: !Stops(stop, s[j])
  {
    match FindStop(s, pos + 1, stop)
    case Some(e) => e - 1
    case None => pos
  }

  predicate AllNumeric(s: string) {
    forall i | 0 <= i < |s| :: IsNumeric(s[i])
  }

  function DigitValue(c: char): nat
    requires IsNumeric(c)
  {
    c as int - '0' as int
  }

  /** The value `str::parse` assigns to a non-empty string of decimal digits (0 for the empty string, which no call site passes). */
  function DecimalValue(digits: string): nat
    requires AllNumeric(digits)
  {
    if digits == [] then 0
    else 10 * DecimalValue(digits[..|digits| - 1]) + DigitValue(digits[|digits| - 1])
  }

  function Yield(kind: TokenType, last: nat): Result<Step, LexFailure> {
    Ok(Step(Some(Token(kind)), last))
  }

  /** The characters that are a token on their own, with their kinds. */
  const SingleCharacterKinds: map<char, TokenType> :=
    map['(' := Lparen, ')' := Rparen, '+' := Plus, '-' := Minus, '*' := Asterisk, '/' := Slash, ';' := Semicolon]

  /** A string literal opened by the quote on `pos`. */
  function ScanStringLiteral(s: string, pos: nat): (r: Result<Step, LexFailure>)
    requires pos < |s|
    ensures r.Ok? ==> pos < r.value.last < |s| && s[r.value.last] == s[pos]
    ensures r.Ok? ==> r.value.token == Some(Token(StringLiteral(s[pos + 1 .. r.value.last])))
    ensures r.Ok? ==> forall j | pos < j < r.value.last :: s[j] != s[pos]
    ensures r.Err? ==> forall j | pos < j < |s| :: s[j] != s[pos]
    ensures r.Err? ==> r.error == if s[pos] == '"' then ExitUnterminatedString else PanicUnterminatedString
  {
    match FindStop(s, pos + 1, QuoteChar(s[pos]))
    case Some(close) => Yield(StringLiteral(s[pos + 1 .. close]), close)
    case None => Err(if s[pos] == '"' then ExitUnterminatedString else PanicUnterminatedString)
  }

  /** An `=` on `pos`, which looks at the character after it. */
  function ScanEquals(s: string, pos: nat): (r: Result<Step, LexFailure>)
    requires pos < |s|
    ensures r.Err? <==> pos + 1 == |s|
    ensures r.Err? ==> r.error == PanicCharOutOfRange(|s|)
    ensures r.Ok? ==> r.value.last == (if s[pos + 1] == '=' then pos + 1 else pos)
    ensures r.Ok? ==> r.value.token == Some(Token(if s[pos + 1] == '=' then DoubleEquals else Equals))
  {
    if pos + 1 >= |s| then Err(PanicCharOutOfRange(pos + 1))
    else if s[pos + 1] == '=' then Yield(DoubleEquals, pos + 1)
    else Yield(Equals, pos)
  }

  /** An integer literal whose first digit is on `pos`. */
  function ScanIntegerLiteral(s: string, pos: nat): (r: Result<Step, LexFailure>)
    requires pos < |s| && IsNumeric(s[pos])
    ensures r.Ok? ==> r.value.last == RunLast(s, pos, NonNumeric)
    ensures r.Ok? ==> pos <= r.value.last < |s| && AllNumeric(s[pos .. r.value.last + 1])
    ensures r.Ok? ==> DecimalValue(s[pos .. r.value.last + 1]) <= I32_MAX
    ensures r.Ok? ==> r.value.token == Some(Token(IntegerLiteral(DecimalValue(s[pos .. r.value.last + 1]) as i32)))
    ensures r.Err? ==> r.error == PanicIntegerOverflow(s[pos .. RunLast(s, pos, NonNumeric) + 1])
    ensures r.Err? ==> AllNumeric(r.error.digits) && DecimalValue(r.error.digits) > I32_MAX
  {
    var last := RunLast(s, pos, NonNumeric);
    var digits := s[pos .. last + 1];
    assert forall i | 0 <= i < |digits| :: digits[i] == s[pos + i];
    if DecimalValue(digits) <= I32_MAX then Yield(IntegerLiteral(DecimalValue(digits) as i32), last)
    else Err(PanicIntegerOverflow(digits))
  }

  /** An identifier whose first character is on `pos`. */
  function ScanIdentifierLiteral(s: string, pos: nat): (r: Result<Step, LexFailure>)
    requires pos < |s|
    ensures r.Ok? && pos <= r.value.last < |s|
    ensures r.value.token == Some(Token(IdentifierLiteral(s[pos .. r.value.last + 1])))
    ensures forall j | pos < j <= r.value.last :: CharIsIdentifier(s[j])
  {
    var last := RunLast(s, pos, NonIdentifier);
    Yield(IdentifierLiteral(s[pos .. last + 1]), last)
  }

  /** One `next_token` call with the cursor on `pos`. */
  function Scan(s: string, pos: nat): (r: Result<Step, LexFailure>)
    requires pos < |s|
    ensures r.Ok? ==> pos <= r.value.last < |s|
  {
    var c := s[pos];
    if c in SingleCharacterKinds then Yield(SingleCharacterKinds[c], pos)
    else if c == '\n' || c == ' ' then Ok(Step(None, pos))
    else if c == '"' || c == '\'' then ScanStringLiteral(s, pos)
    else if c == '=' then ScanEquals(s, pos)
    else if IsNumeric(c) then ScanIntegerLiteral(s, pos)
    else if CharIsIdentifierStart(c) then ScanIdentifierLiteral(s, pos)
    else Yield(Invalid([c]), pos)
  }

  function Emitted(token: Option<Token>): seq<Token> {
    if token.Some? then [token.value] else []
  }

  /** `tokens` followed by the outcome of the rest of the run. */
  function Prepend(tokens: seq<Token>, rest: Result<seq<Token>, LexFailure>): Result<seq<Token>, LexFailure> {
    match rest
    case Ok(more) => Ok(tokens + more)
    case Err(e) => Err(e)
  }

  lemma PrependNothing(rest: Result<seq<Token>, LexFailure>)
    ensures Prepend([], rest) == rest
  {
    if rest.Ok? {
      assert [] + rest.value == rest.value;
    }
  }

  lemma PrependTwice(front: seq<Token>, back: seq<Token>, rest: Result<seq<Token>, LexFailure>)
    ensures Prepend(front, Prepend(back, rest)) == Prepend(front + back, rest)
  {
    if rest.Ok? {
      assert front + (back + rest.value) == (front + back) + rest.value;
    }
  }

  /** The `tokenize` loop started with the cursor on `pos`. */
  function Lex(s: string, pos: nat): (r: Result<seq<Token>, LexFailure>)
    ensures r.Ok? && pos <= |s| ==> |r.value| <= |s| - pos
    decreases |s| - pos
  {
    if pos >= |s| then Ok([])
    else match Scan(s, pos)
      case Err(e) => Err(e)
      case Ok(step) => Prepend(Emitted(step.token), Lex(s, step.last + 1))
  }

  lemma LexStops(s: string, pos: nat)
    requires pos < |s| && Scan(s, pos).Err?
    ensures Lex(s, pos) == Err(Scan(s, pos).error)
  {
  }

  lemma LexContinues(s: string, pos: nat)
    requires pos < |s| && Scan(s, pos).Ok?
    ensures Lex(s, pos) == Prepend(Emitted(Scan(s, pos).value.token), Lex(s, Scan(s, pos).value.last + 1))
  {
  }

  /** One more step of a run that started at `start` and has yielded `tokens` so far. */
  lemma LexAdvances(s: string, start: nat, pos: nat, tokens: seq<Token>, token: Option<Token>, last: nat)
    requires pos < |s| && Scan(s, pos) == Ok(Step(token, last))
    requires Lex(s, start) == Prepend(tokens, Lex(s, pos))
    ensures token.Some? ==> Lex(s, start) == Prepend(tokens + [token.value], Lex(s, last + 1))
    ensures token.None? ==> Lex(s, start) == Prepend(tokens, Lex(s, last + 1))
  {
    LexContinues(s, pos);
    PrependTwice(tokens, Emitted(token), Lex(s, last + 1));
    if token.None? {
      assert tokens + Emitted(token) == tokens;
    }
  }

  /** A failing step ends a run that started at `start` with that failure. */
  lemma LexFails(s: string, start: nat, pos: nat, tokens: seq<Token>)
    requires pos < |s| && Scan(s, pos).Err?
    requires Lex(s, start) == Prepend(tokens, Lex(s, pos))
    ensures Lex(s, start) == Err(Scan(s, pos).error)
  {
    LexStops(s, pos);
  }

  // ---------------------------------------------------------------------
  // The tokenizer
  // ---------------------------------------------------------------------

  class Tokenizer {
    var position: nat
    var source: string

    constructor (source: string)
      requires IsAscii(source)
      ensures this.source == source && position == 0
    {
      position := 0;
      this.source := source;
    }

    /**
     * Calls `NextToken` once per cursor position and steps past the last
     * character of each lexeme, until the cursor reaches the end.
     */
    method Tokenize() returns (r: Result<seq<Token>, LexFailure>)
      requires IsAscii(source)
      modifies this`position
      ensures r == Lex(source, old(position))
      ensures r.Ok? ==> position == if old(position) < |source| then |source| else old(position)
    {
      ghost var text, start := source, position;
      var tokenlist: seq<Token> := [];
      PrependNothing(Lex(text, start));
      while !IsAtEnd()
        invariant source == text
        invariant position == start || start < position <= |text|
        invariant Lex(text, start) == Prepend(tokenlist, Lex(text, position))
        decreases |text| - position
      {
        ghost var here := position;
        var next := NextToken();
        if next.Err? {
          LexFails(text, start, here, tokenlist);
          return Err(next.error);
        }
        LexAdvances(text, start, here, tokenlist, next.value, position);
        if next.value.Some? {
          tokenlist := tokenlist + [next.value.value];
        }
        position := position + 1;
      }
      assert tokenlist + [] == tokenlist;
      r := Ok(tokenlist);
    }

    function IsAtEnd(): (r: bool)
      reads this
      ensures r <==> position >= |source|
    {
      position + 1 > |source|
    }

    /** Scans a string literal opened at the cursor; the cursor ends on the closing quote. */
    method LookaheadStringLiteral(quote: char) returns (r: Option<string>)
      requires position < |source|
      modifies this`position
      ensures match FindStop(source, old(position) + 1, QuoteChar(quote))
              case None => r == None && position == old(position)
              case Some(close) => r == Some(source[old(position) + 1 .. close]) && position == close
    {
      var skip: nat := 0;
      for index := 0 to |source| - (position + 1)
        invariant skip == 0
        invariant forall j | position + 1 <= j < position + 1 + index :: source[j] != quote
      {
        if source[position + 1 + index] == quote {
          skip := index + 1;  // step onto the closing quote
          break;
        }
      }
      position := position + skip;
      if skip == 0 {
        r := None;
      } else {
        r := Some(source[position - skip + 1 .. position]);
      }
    }

    /** Scans an identifier started at the cursor; the cursor ends on its last character. */
    method LookaheadIdentifierLiteral() returns (r: string)
      requires position < |source|
      modifies this`position
      ensures position == RunLast(source, old(position), NonIdentifier)
      ensures r == source[old(position) .. position + 1]
    {
      var skip: nat := 0;
      for index := 0 to |source| - (position + 1)
        invariant skip == 0
        invariant forall j | position + 1 <= j < position + 1 + index :: CharIsIdentifier(source[j])
      {
        if !CharIsIdentifier(source[position + 1 + index]) {
          skip := index;
          break;
        }
      }
      position := position + skip;
      r := source[position - skip .. position + 1];
    }

    /** Scans an integer literal started at the cursor; the cursor ends on its last digit. */
    method LookaheadIntegerLiteral() returns (r: Result<i32, LexFailure>)
      requires position < |source| && IsNumeric(source[position])
      modifies this`position
      ensures position == RunLast(source, old(position), NonNumeric)
      ensures AllNumeric(source[old(position) .. position + 1])
      ensures var digits := source[old(position) .. position + 1];
              if DecimalValue(digits) <= I32_MAX then r == Ok(DecimalValue(digits) as i32)
              else r == Err(PanicIntegerOverflow(digits))
    {
      var skip: nat := 0;
      for index := 0 to |source| - (position + 1)
        invariant skip == 0
        invariant forall j | position + 1 <= j < position + 1 + index :: IsNumeric(source[j])
      {
        if !IsNumeric(source[position + 1 + index]) {
          skip := index;
          break;
        }
      }
      position := position + skip;
      var slice := source[position - skip .. position + 1];
      assert forall i | 0 <= i < |slice| :: slice[i] == source[position - skip + i];
      if DecimalValue(slice) <= I32_MAX {
        r := Ok(DecimalValue(slice) as i32);
      } else {
        r := Err(PanicIntegerOverflow(slice));
      }
    }

    /** If the character after the cursor is `c`, steps onto it and answers true. */
    method LookaheadOperatorDouble(c: char) returns (r: Result<bool, LexFailure>)
      modifies this`position
      ensures old(position) + 1 < |source| ==> r == Ok(source[old(position) + 1] == c)
      ensures old(position) + 1 >= |source| ==> r == Err(PanicCharOutOfRange(old(position) + 1))
      ensures position == if r == Ok(true) then old(position) + 1 else old(position)
    {
      var next := GetChar(position + 1);
      if next.Err? {
        return Err(next.error);
      }
      if next.value == c {
        position := position + 1;
        r := Ok(true);
      } else {
        r := Ok(false);
      }
    }

    /** The character at `index`; reading past the end panics. */
    function GetChar(index: nat): (r: Result<char, LexFailure>)
      reads this
      ensures r.Ok? <==> index < |source|
      ensures r.Ok? ==> r.value == source[index]
      ensures r.Err? ==> r.error == PanicCharOutOfRange(index)
    {
      if index < |source| then Ok(source[index]) else Err(PanicCharOutOfRange(index))
    }

    /**
     * Dispatches on the character under the cursor.  `None` means the
     * character is ignored; the cursor is left on the last character of
     * the lexeme.
     */
    method NextToken() returns (r: Result<Option<Token>, LexFailure>)
      requires position < |source|
      modifies this`position
      ensures r.Ok? ==> Scan(source, old(position)) == Ok(Step(r.value, position))
      ensures r.Err? ==> Scan(source, old(position)) == Err(r.error)
    {
      var c := GetChar(position).value;
      var ignore := false;
      var kind := Invalid("");
      if c == '(' {
        kind := Lparen;
      } else if c == ')' {
        kind := Rparen;
      } else if c == '+' {
        kind := Plus;
      } else if c == '-' {
        kind := Minus;
      } else if c == '*' {
        kind := Asterisk;
      } else if c == '/' {
        kind := Slash;
      } else if c == ';' {
        kind := Semicolon;
      } else if c == '\n' || c == ' ' {
        ignore := true;
      } else if c == '"' {
        var literal := LookaheadStringLiteral('"');
        if literal.None? {
          return Err(ExitUnterminatedString);
        }
        kind := StringLiteral(literal.value);
      } else if c == '\'' {
        var literal := LookaheadStringLiteral('\'');
        if literal.None? {
          return Err(PanicUnterminatedString);
        }
        kind := StringLiteral(literal.value);
      } else if c == '=' {
        var double := LookaheadOperatorDouble('=');
        if double.Err? {
          return Err(double.error);
        }
        kind := if double.value then DoubleEquals else Equals;
      } else if IsNumeric(c) {
        var value := LookaheadIntegerLiteral();
        if value.Err? {
          return Err(value.error);
        }
        kind := IntegerLiteral(value.value);
      } else if CharIsIdentifierStart(c) {
        var name := LookaheadIdentifierLiteral();
        kind := IdentifierLiteral(name);
      } else {
        kind := Invalid([c]);
      }
      r := if ignore then Ok(None) else Ok(Some(Token(kind)));
    }
  }
}
