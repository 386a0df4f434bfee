/**
 * The parser: a `Parser` object holding a token list and a cursor into it,
 * with one production for a primary and one for an additive term.
 *
 * Every read of the token list is an indexing operation that panics when
 * the cursor is past the end; here that panic is the failure
 * `IndexOutOfBounds(index, length)`.
 */
module Parsing {
  import opened Results
  import opened Lexer

  /** A syntax tree node: a single token, or a binary operation on two subtrees. */
  datatype AstNode =
    | Literal(token: Token)
    | ExprBinaryOp(left: AstNode, operator: Token, right: AstNode)

  /** An index past the end of the token list (`index` >= `length`). */
  datatype ParseFailure = IndexOutOfBounds(index: nat, length: nat)

  /** A parsed tree with the cursor position the parser is left at. */
  datatype Parsed = Parsed(tree: AstNode, cursor: nat)

  /** The token kinds the term loop accepts as operators. */
  predicate IsAdditive(kind: TokenType) {
    kind.Plus? || kind.Minus?
  }

  /**
   * The term loop entered with tree `expr` and the cursor at `p`, where
   * `tokens[p]` is the token the last primary wrapped. While that token
   * is `+` or `-`, it becomes the operator, the cursor moves on by two and
   * the token found there is wrapped as the right operand.
   */
  function Fold(tokens: seq<Token>, expr: AstNode, p: nat): (r: Result<Parsed, ParseFailure>)
    requires p < |tokens|
    ensures r.Ok? ==> p <= r.value.cursor < |tokens| && (r.value.cursor - p) % 2 == 0
    ensures r.Ok? ==> !IsAdditive(tokens[r.value.cursor].kind)
    ensures r.Err? ==> r.error.length == |tokens| <= r.error.index
    decreases |tokens| - p
  {
    if !IsAdditive(tokens[p].kind) then
      Ok(Parsed(expr, p))
    else if p + 2 < |tokens| then
      Fold(tokens, ExprBinaryOp(expr, tokens[p], Literal(tokens[p + 2])), p + 2)
    else
      Err(IndexOutOfBounds(p + 2, |tokens|))
  }

  /**
   * `term -> primary (("-" | "+") primary)*` with the cursor starting at
   * `pos`: the first primary wraps `tokens[pos + 1]`, since a primary
   * advances the cursor before reading.
   */
  function Term(tokens: seq<Token>, pos: nat): (r: Result<Parsed, ParseFailure>)
    ensures r.Ok? ==> pos < r.value.cursor < |tokens| && (r.value.cursor - pos) % 2 == 1
    ensures r.Err? ==> r.error.length == |tokens| <= r.error.index
  {
    if pos + 1 < |tokens| then Fold(tokens, Literal(tokens[pos + 1]), pos + 1)
    else Err(IndexOutOfBounds(pos + 1, |tokens|))
  }

  class Parser {
    var tokenlist: seq<Token>
    var position: nat

    /** A parser at the start of `tokenlist`. */
    constructor (tokenlist: seq<Token>)
      ensures this.tokenlist == tokenlist && position == 0
    {
      this.tokenlist := tokenlist;
      position := 0;
    }

    /** Parses a term from the current position. */
    method Parse() returns (r: Result<AstNode, ParseFailure>)
      modifies this`position
      ensures match Term(tokenlist, old(position))
        case Ok(parsed) => r == Ok(parsed.tree) && position == parsed.cursor
        case Err(e) => r == Err(e)
    {
      r := ProdTerm();
    }

    /** The token under the cursor, or the out-of-range failure. */
    function GetCurrentToken(): (r: Result<Token, ParseFailure>)
      reads this
      ensures r.Ok? <==> position < |tokenlist|
      ensures r.Ok? ==> r.value == tokenlist[position]
      ensures r.Err? ==> r.error == IndexOutOfBounds(position, |tokenlist|)
    {
      if position < |tokenlist| then Ok(tokenlist[position])
      else Err(IndexOutOfBounds(position, |tokenlist|))
    }

    /** Advances the cursor by one and wraps the token now under it. */
    method ProdPrimary() returns (r: Result<AstNode, ParseFailure>)
      modifies this`position
      ensures position == old(position) + 1
      ensures r.Ok? <==> position < |tokenlist|
      ensures r.Ok? ==> r.value == Literal(tokenlist[position])
      ensures r.Err? ==> r.error == IndexOutOfBounds(position, |tokenlist|)
    {
      position := position + 1;
      var current :- GetCurrentToken();
      r := Ok(Literal(current));
    }

    /** A primary followed by any number of `+`/`-` primary pairs, folded to the left. */
    method ProdTerm() returns (r: Result<AstNode, ParseFailure>)
      modifies this`position
      ensures match Term(tokenlist, old(position))
        case Ok(parsed) => r == Ok(parsed.tree) && position == parsed.cursor
        case Err(e) => r == Err(e)
    {
      ghost var start := position;
      var expr :- ProdPrimary();
      while IsAdditive(GetCurrentToken().value.kind)
        invariant position < |tokenlist|
        invariant Term(tokenlist, start) == Fold(tokenlist, expr, position)
        decreases |tokenlist| - position
      {
        var operator := GetCurrentToken().value;
        position := position + 1;
        var rhs :- ProdPrimary();
        expr := ExprBinaryOp(expr, operator, rhs);
      }
      r := Ok(expr);
    }
  }
}
