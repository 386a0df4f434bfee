/**
 * What the term production computes, stated against an independent
 * description: the primaries sit at every other position from `pos + 1`
 * on, a term continues while the token a primary wrapped is `+` or `-`,
 * and the tree is the left fold of those primaries.
 */
module ParsingProperties {
  import opened Results
  import opened Lexer
  import opened Parsing
  import LexerProperties

  /** The cursor position of the `k`-th primary of a term begun at `pos`. */
  function PrimaryAt(pos: nat, k: nat): (r: nat)
    ensures r > pos && (r - pos) % 2 == 1
  {
    pos + 1 + 2 * k
  }

  /** The first `n` primaries of a term begun at `pos` are each followed by another one. */
  predicate Continues(tokens: seq<Token>, pos: nat, n: nat) {
    forall k | 0 <= k < n :: PrimaryAt(pos, k) < |tokens| && IsAdditive(tokens[PrimaryAt(pos, k)].kind)
  }

  /** The left fold of the first `n + 1` primaries, each operator being the token its left operand ends on. */
  function Chain(tokens: seq<Token>, pos: nat, n: nat): AstNode
    requires PrimaryAt(pos, n) < |tokens|
  {
    if n == 0 then Literal(tokens[pos + 1])
    else ExprBinaryOp(Chain(tokens, pos, n - 1), tokens[PrimaryAt(pos, n - 1)], Literal(tokens[PrimaryAt(pos, n)]))
  }

  // ---------------------------------------------------------------- shape of a tree

  predicate AdditiveOperators(t: AstNode) {
    match t
    case Literal(_) => true
    case ExprBinaryOp(left, operator, right) =>
      IsAdditive(operator.kind) && AdditiveOperators(left) && AdditiveOperators(right)
  }

  /** Every right operand is a single literal: the tree leans to the left. */
  predicate LeftLeaning(t: AstNode) {
    match t
    case Literal(_) => true
    case ExprBinaryOp(left, _, right) => right.Literal? && LeftLeaning(left)
  }

  function OperatorCount(t: AstNode): nat {
    match t
    case Literal(_) => 0
    case ExprBinaryOp(left, _, right) => OperatorCount(left) + 1 + OperatorCount(right)
  }

  /** The literal tokens of a tree, left to right. */
  function Operands(t: AstNode): seq<Token> {
    match t
    case Literal(token) => [token]
    case ExprBinaryOp(left, _, right) => Operands(left) + Operands(right)
  }

  /** The token of the rightmost literal. */
  function Rightmost(t: AstNode): Token {
    match t
    case Literal(token) => token
    case ExprBinaryOp(_, _, right) => Rightmost(right)
  }

  /** Every operator is the same token as the last operand to its left. */
  predicate OperatorRepeatsOperand(t: AstNode) {
    match t
    case Literal(_) => true
    case ExprBinaryOp(left, operator, right) =>
      operator == Rightmost(left) && OperatorRepeatsOperand(left) && OperatorRepeatsOperand(right)
  }

  /** A term that continues for `n` primaries continues for any fewer. */
  lemma ContinuesPrefix(tokens: seq<Token>, pos: nat, m: nat, n: nat)
    requires m <= n && Continues(tokens, pos, n)
    ensures Continues(tokens, pos, m)
  {
    forall k | 0 <= k < m
      ensures PrimaryAt(pos, k) < |tokens| && IsAdditive(tokens[PrimaryAt(pos, k)].kind)
    {
      assert k < n;
    }
  }

  /** A term continues for one more primary when the token of the last one is `+` or `-`. */
  lemma ContinuesExtend(tokens: seq<Token>, pos: nat, m: nat)
    requires Continues(tokens, pos, m)
    requires PrimaryAt(pos, m) < |tokens| && IsAdditive(tokens[PrimaryAt(pos, m)].kind)
    ensures Continues(tokens, pos, m + 1)
  {
    forall k | 0 <= k < m + 1
      ensures PrimaryAt(pos, k) < |tokens| && IsAdditive(tokens[PrimaryAt(pos, k)].kind)
    {
      if k < m {
        assert PrimaryAt(pos, k) < |tokens| && IsAdditive(tokens[PrimaryAt(pos, k)].kind);
      }
    }
  }

  /** The left fold of `n + 1` continuing primaries has only `+`/`-` operators, one per iteration, each repeating its left operand's last token. */
  lemma {:induction false} ChainShape(tokens: seq<Token>, pos: nat, n: nat)
    requires PrimaryAt(pos, n) < |tokens| && Continues(tokens, pos, n)
    ensures AdditiveOperators(Chain(tokens, pos, n))
    ensures LeftLeaning(Chain(tokens, pos, n))
    ensures OperatorRepeatsOperand(Chain(tokens, pos, n))
    ensures OperatorCount(Chain(tokens, pos, n)) == n
    ensures Rightmost(Chain(tokens, pos, n)) == tokens[PrimaryAt(pos, n)]
  {
    if n > 0 {
      ContinuesPrefix(tokens, pos, n - 1, n);
      ChainShape(tokens, pos, n - 1);
      assert IsAdditive(tokens[PrimaryAt(pos, n - 1)].kind);
    }
  }

  /** The operands of the left fold of `n + 1` primaries are those primaries' tokens, in order. */
  lemma {:induction false} ChainOperands(tokens: seq<Token>, pos: nat, n: nat)
    requires PrimaryAt(pos, n) < |tokens|
    ensures |Operands(Chain(tokens, pos, n))| == n + 1
    ensures forall k | 0 <= k <= n :: Operands(Chain(tokens, pos, n))[k] == tokens[PrimaryAt(pos, k)]
  {
    if n > 0 {
      ChainOperands(tokens, pos, n - 1);
      var left := Operands(Chain(tokens, pos, n - 1));
      assert Operands(Chain(tokens, pos, n)) == left + [tokens[PrimaryAt(pos, n)]];
    }
  }

  // ---------------------------------------------------------------- the fold against the chain

  /** Entered after `m` iterations, the loop ends after `n` when the term stops there. */
  lemma {:induction false} FoldCompletes(tokens: seq<Token>, pos: nat, m: nat, n: nat)
    requires m <= n && PrimaryAt(pos, n) < |tokens|
    requires forall k | m <= k < n :: IsAdditive(tokens[PrimaryAt(pos, k)].kind)
    requires !IsAdditive(tokens[PrimaryAt(pos, n)].kind)
    ensures Fold(tokens, Chain(tokens, pos, m), PrimaryAt(pos, m)) == Ok(Parsed(Chain(tokens, pos, n), PrimaryAt(pos, n)))
    decreases n - m
  {
    if m < n {
      assert IsAdditive(tokens[PrimaryAt(pos, m)].kind);
      assert PrimaryAt(pos, m) + 2 == PrimaryAt(pos, m + 1);
      FoldCompletes(tokens, pos, m + 1, n);
    }
  }

  /** Entered after `m` iterations, the loop fails reading primary `n` when it runs off the end there. */
  lemma {:induction false} FoldRunsOut(tokens: seq<Token>, pos: nat, m: nat, n: nat)
    requires m < n && PrimaryAt(pos, m) < |tokens| <= PrimaryAt(pos, n)
    requires forall k | m <= k < n :: PrimaryAt(pos, k) < |tokens| && IsAdditive(tokens[PrimaryAt(pos, k)].kind)
    ensures Fold(tokens, Chain(tokens, pos, m), PrimaryAt(pos, m)) == Err(IndexOutOfBounds(PrimaryAt(pos, n), |tokens|))
    decreases n - m
  {
    assert IsAdditive(tokens[PrimaryAt(pos, m)].kind);
    assert PrimaryAt(pos, m) + 2 == PrimaryAt(pos, m + 1);
    if m + 1 < n {
      FoldRunsOut(tokens, pos, m + 1, n);
    }
  }

  /** Entered after `m` iterations, a loop that succeeds ends on a primary it continued to, with the chain as its tree. */
  lemma {:induction false} FoldSucceeds(tokens: seq<Token>, pos: nat, m: nat)
    requires PrimaryAt(pos, m) < |tokens| && Continues(tokens, pos, m)
    requires Fold(tokens, Chain(tokens, pos, m), PrimaryAt(pos, m)).Ok?
    ensures var parsed := Fold(tokens, Chain(tokens, pos, m), PrimaryAt(pos, m)).value;
      var n := (parsed.cursor - pos - 1) / 2;
      parsed.cursor == PrimaryAt(pos, n) && Continues(tokens, pos, n) && parsed.tree == Chain(tokens, pos, n)
    decreases |tokens| - PrimaryAt(pos, m)
  {
    var p := PrimaryAt(pos, m);
    if IsAdditive(tokens[p].kind) {
      assert p + 2 == PrimaryAt(pos, m + 1);
      ContinuesExtend(tokens, pos, m);
      FoldSucceeds(tokens, pos, m + 1);
    } else {
      assert (p - pos - 1) / 2 == m;
    }
  }

  /** Entered after `m` iterations, a loop that fails does so reading a primary past the end, having continued to it. */
  lemma {:induction false} FoldFails(tokens: seq<Token>, pos: nat, m: nat)
    requires PrimaryAt(pos, m) < |tokens| && Continues(tokens, pos, m)
    requires Fold(tokens, Chain(tokens, pos, m), PrimaryAt(pos, m)).Err?
    ensures var e := Fold(tokens, Chain(tokens, pos, m), PrimaryAt(pos, m)).error;
      var n := (e.index - pos - 1) / 2;
      e.index == PrimaryAt(pos, n) && Continues(tokens, pos, n)
    decreases |tokens| - PrimaryAt(pos, m)
  {
    var p := PrimaryAt(pos, m);
    assert IsAdditive(tokens[p].kind);
    assert p + 2 == PrimaryAt(pos, m + 1);
    ContinuesExtend(tokens, pos, m);
    if p + 2 < |tokens| {
      FoldFails(tokens, pos, m + 1);
    } else {
      assert (p + 2 - pos - 1) / 2 == m + 1;
    }
  }

  // ---------------------------------------------------------------- the term production

  /**
   * A term that succeeds ends on its primary `n`, where `n` is the number of
   * loop iterations: every earlier primary was followed by `+` or `-`, this
   * one is not, and the tree is the left fold of the `n + 1` primaries.
   */
  lemma TermSucceeds(tokens: seq<Token>, pos: nat)
    requires Term(tokens, pos).Ok?
    ensures var parsed := Term(tokens, pos).value;
      var n := (parsed.cursor - pos - 1) / 2;
      parsed.cursor == PrimaryAt(pos, n) && Continues(tokens, pos, n)
      && !IsAdditive(tokens[parsed.cursor].kind) && parsed.tree == Chain(tokens, pos, n)
  {
    FoldSucceeds(tokens, pos, 0);
  }

  /** Conversely, a term whose primaries stop continuing at primary `n` parses to their left fold. */
  lemma TermCompletes(tokens: seq<Token>, pos: nat, n: nat)
    requires PrimaryAt(pos, n) < |tokens| && Continues(tokens, pos, n)
    requires !IsAdditive(tokens[PrimaryAt(pos, n)].kind)
    ensures Term(tokens, pos) == Ok(Parsed(Chain(tokens, pos, n), PrimaryAt(pos, n)))
  {
    FoldCompletes(tokens, pos, 0, n);
  }

  /**
   * A term that fails does so reading primary `n` past the end of the
   * token list, where every earlier primary was followed by `+` or `-`.
   */
  lemma TermFails(tokens: seq<Token>, pos: nat)
    requires Term(tokens, pos).Err?
    ensures var e := Term(tokens, pos).error;
      var n := (e.index - pos - 1) / 2;
      e.index == PrimaryAt(pos, n) && e.length == |tokens| <= e.index && Continues(tokens, pos, n)
  {
    if pos + 1 < |tokens| {
      FoldFails(tokens, pos, 0);
    } else {
      assert PrimaryAt(pos, 0) == pos + 1;
    }
  }

  /** Conversely, a term whose primaries all continue up to one past the end fails there. */
  lemma TermRunsOut(tokens: seq<Token>, pos: nat, n: nat)
    requires |tokens| <= PrimaryAt(pos, n) && Continues(tokens, pos, n)
    ensures Term(tokens, pos) == Err(IndexOutOfBounds(PrimaryAt(pos, n), |tokens|))
  {
    if n > 0 {
      assert PrimaryAt(pos, 0) < |tokens|;
      FoldRunsOut(tokens, pos, 0, n);
    }
  }

  /**
   * The tree of a successful term: only `+`/`-` operators, folded to the
   * left, one operator per loop iteration, each operator repeating its left
   * operand's last token, and the operands the tokens at `pos + 1`,
   * `pos + 3`, ... up to the final cursor.
   */
  lemma TermTree(tokens: seq<Token>, pos: nat)
    requires Term(tokens, pos).Ok?
    ensures var parsed := Term(tokens, pos).value;
      var n := (parsed.cursor - pos - 1) / 2;
      AdditiveOperators(parsed.tree) && LeftLeaning(parsed.tree) && OperatorRepeatsOperand(parsed.tree)
      && OperatorCount(parsed.tree) == n && Rightmost(parsed.tree) == tokens[parsed.cursor]
      && |Operands(parsed.tree)| == n + 1
      && forall k | 0 <= k <= n :: Operands(parsed.tree)[k] == tokens[PrimaryAt(pos, k)]
  {
    TermSucceeds(tokens, pos);
    var n := (Term(tokens, pos).value.cursor - pos - 1) / 2;
    ChainShape(tokens, pos, n);
    ChainOperands(tokens, pos, n);
  }

  // ---------------------------------------------------------------- examples
  //
  // The source-text examples take the source as a parameter constrained by
  // `requires` rather than as an inline literal, which keeps Dafny from
  // unfolding the literal character by character.

  /** `x + y 1`: the first token is never read, and the operator repeats the literal before it. */
  lemma SkippedFirstToken(x: Token, y: Token, one: Token)
    requires one.kind == IntegerLiteral(1)
    ensures var tokens := [x, Token(Plus), y, one];
      Term(tokens, 0) == Ok(Parsed(ExprBinaryOp(Literal(Token(Plus)), Token(Plus), Literal(one)), 3))
  {
    var tokens := [x, Token(Plus), y, one];
    assert Continues(tokens, 0, 1) by {
      assert PrimaryAt(0, 0) == 1;
    }
    TermCompletes(tokens, 0, 1);
  }

  /** `x = 10;` parses to the equals sign alone. */
  lemma AssignmentParse(s: string)
    requires s == "x = 10;"
    ensures Lex(s, 0).Ok? && Term(Lex(s, 0).value, 0) == Ok(Parsed(Literal(Token(Equals)), 1))
  {
    LexerProperties.AssignmentExample(s);
    var tokens := Lex(s, 0).value;
    assert tokens[1] == Token(Equals);
    TermCompletes(tokens, 0, 0);
  }

  /** `1 + 2 - 3` fails: the loop reads past the final operand. */
  lemma ArithmeticParse(s: string)
    requires s == "1 + 2 - 3"
    ensures Lex(s, 0).Ok? && Term(Lex(s, 0).value, 0) == Err(IndexOutOfBounds(5, 5))
  {
    LexerProperties.ArithmeticExample(s);
    var tokens := Lex(s, 0).value;
    assert tokens[1] == Token(Plus) && tokens[3] == Token(Minus);
    assert Continues(tokens, 0, 2) by {
      assert PrimaryAt(0, 0) == 1 && PrimaryAt(0, 1) == 3;
    }
    TermRunsOut(tokens, 0, 2);
  }
}
