/**
 * The syntax tree (ast/ast.go): a closed family of node variants, each with
 * the token it was built from, its `TokenLiteral()` and its canonical
 * `String()` rendering.
 *
 * Go pointers that the source tests against nil (a let or return value, an
 * expression statement's expression, the branches of an `if`, the body of a
 * `while`) are `Option`s here. A failed `let` leaves a typed nil
 * `*LetStatement` in the statement list, which is the variant
 * `NilLetStatement`. Rendering a node that dereferences a nil pointer is a
 * run-time panic in Go; the `...Renderable` predicates rule those nodes out.
 */
module Ast {

  import opened Wrappers
  import opened Token
  import opened Int64

  datatype Identifier = Identifier(token: Token, value: string)

  datatype Expression =
    | IdentifierExpr(ident: Identifier)
    | IntegerLiteral(token: Token, intValue: int64)
    | BooleanLiteral(token: Token, boolValue: bool)
    | PrefixExpression(token: Token, operator: string, right: Expression)
    | InfixExpression(token: Token, left: Expression, operator: string, right: Expression)
    | IfExpression(token: Token, condition: Expression,
                   consequence: Option<BlockStatement>, alternative: Option<BlockStatement>)
    | FunctionLiteral(token: Token, parameters: seq<Identifier>, body: BlockStatement)
    | CallExpression(token: Token, callee: Expression, arguments: seq<Expression>)

  datatype Statement =
    | LetStatement(token: Token, name: Identifier, value: Option<Expression>)
    | NilLetStatement
    | AssignStatement(token: Token, name: Identifier, value: Option<Expression>)
    | ReturnStatement(token: Token, value: Option<Expression>)
    | WhileStatement(token: Token, condition: Expression, consequence: Option<BlockStatement>)
    | ExpressionStatement(token: Token, expression: Option<Expression>)
    | Block(block: BlockStatement)

  datatype BlockStatement = BlockStatement(token: Token, statements: seq<Statement>)

  datatype Program = Program(statements: seq<Statement>)

  // ---------------------------------------------------------------------------
  // TokenLiteral

  /** An identifier expression is the Go `*Identifier` itself, so its token
      is the identifier's. Leaves that carry no more than their token render
      as that token's literal. */
  function ExprTokenLiteral(e: Expression): (r: string)
    ensures (e.IntegerLiteral? || e.BooleanLiteral? || (e.IdentifierExpr? && e.ident.value == e.ident.token.literal))
      ==> ExprRenderable(e) && r == ExprString(e)
  {
    match e
    case IdentifierExpr(id) => id.token.literal
    case _ => e.token.literal
  }

  /** A nil `*LetStatement` has no token: asking for it panics. The
      rendering of `let`, assignment and `return` starts with this literal. */
  function StmtTokenLiteral(s: Statement): (r: string)
    requires !s.NilLetStatement?
    ensures StmtRenderable(s) && (s.LetStatement? || s.AssignStatement? || s.ReturnStatement?) ==> r <= StmtString(s)
  {
    match s
    case LetStatement(tok, _, _) => tok.literal
    case AssignStatement(tok, _, _) => tok.literal
    case ReturnStatement(tok, _) => tok.literal
    case WhileStatement(tok, _, _) => tok.literal
    case ExpressionStatement(tok, _) => tok.literal
    case Block(b) => b.token.literal
  }

  /** The first statement's token literal, or "" for an empty program. */
  function ProgramTokenLiteral(p: Program): (r: string)
    requires p.statements == [] || !p.statements[0].NilLetStatement?
    ensures p.statements == [] ==> r == ""
    ensures p.statements != [] && StatementsRenderable(p.statements)
      && (p.statements[0].LetStatement? || p.statements[0].AssignStatement? || p.statements[0].ReturnStatement?)
      ==> r <= ProgramString(p)
  {
    if |p.statements| > 0 then StmtTokenLiteral(p.statements[0]) else ""
  }

  // ---------------------------------------------------------------------------
  // Which nodes can be rendered without dereferencing nil

  predicate ExprRenderable(e: Expression)
    decreases e
  {
    match e
    case PrefixExpression(_, _, r) => ExprRenderable(r)
    case InfixExpression(_, l, _, r) => ExprRenderable(l) && ExprRenderable(r)
    case IfExpression(_, c, cons, alt) =>
      && ExprRenderable(c)
      && (cons.Some? ==> BlockRenderable(cons.value))
      && (alt.Some? ==> BlockRenderable(alt.value))
    case FunctionLiteral(_, _, body) => BlockRenderable(body)
    case CallExpression(_, f, args) => ExprRenderable(f) && ExprsRenderable(args)
    case _ => true
  }

  predicate ExprsRenderable(es: seq<Expression>)
    decreases es
  {
    forall i :: 0 <= i < |es| ==> ExprRenderable(es[i])
  }

  predicate OptExprRenderable(e: Option<Expression>)
    decreases e
  {
    e.Some? ==> ExprRenderable(e.value)
  }

  predicate StmtRenderable(s: Statement)
    decreases s
  {
    match s
    case NilLetStatement => false
    case LetStatement(_, _, v) => OptExprRenderable(v)
    case AssignStatement(_, _, v) => OptExprRenderable(v)
    case ReturnStatement(_, v) => OptExprRenderable(v)
    case WhileStatement(_, c, cons) => ExprRenderable(c) && (cons.Some? ==> BlockRenderable(cons.value))
    case ExpressionStatement(_, e) => e.Some? && ExprRenderable(e.value)
    case Block(b) => BlockRenderable(b)
  }

  predicate StatementsRenderable(ss: seq<Statement>)
    decreases ss
  {
    forall i :: 0 <= i < |ss| ==> StmtRenderable(ss[i])
  }

  predicate BlockRenderable(b: BlockStatement)
    decreases b
  {
    StatementsRenderable(b.statements)
  }

  // ---------------------------------------------------------------------------
  // String

  /** Go's `strings.Join`. */
  function Join(parts: seq<string>, sep: string): string {
    if |parts| == 0 then ""
    else if |parts| == 1 then parts[0]
    else parts[0] + sep + Join(parts[1..], sep)
  }

  function IdentifierValues(ids: seq<Identifier>): (r: seq<string>)
    ensures |r| == |ids| && forall i :: 0 <= i < |ids| ==> r[i] == ids[i].value
  {
    if ids == [] then [] else [ids[0].value] + IdentifierValues(ids[1..])
  }

  /** Operator expressions are wrapped in one pair of parentheses; an `if`
      expression starts with its keyword. */
  function ExprString(e: Expression): (r: string)
    requires ExprRenderable(e)
    ensures e.PrefixExpression? || e.InfixExpression? ==> |r| >= 2 && r[0] == '(' && r[|r| - 1] == ')'
    ensures e.IfExpression? ==> "if" <= r
    decreases e
  {
    match e
    case IdentifierExpr(id) => id.value
    case IntegerLiteral(tok, _) => tok.literal
    case BooleanLiteral(tok, _) => tok.literal
    case PrefixExpression(_, op, r) => "(" + op + ExprString(r) + ")"
    case InfixExpression(_, l, op, r) => "(" + ExprString(l) + " " + op + " " + ExprString(r) + ")"
    case IfExpression(_, c, cons, alt) =>
      "if" + ExprString(c)
      + (if cons.Some? then " " + BlockString(cons.value) else "")
      + (if alt.Some? then "else " + BlockString(alt.value) else "")
    case FunctionLiteral(tok, params, body) =>
      tok.literal + "(" + Join(IdentifierValues(params), ", ") + ") " + BlockString(body)
    case CallExpression(_, f, args) =>
      ExprString(f) + "(" + Join(ExprStrings(args), ",") + ")"
  }

  function ExprStrings(es: seq<Expression>): seq<string>
    requires ExprsRenderable(es)
    decreases es
  {
    if es == [] then [] else [ExprString(es[0])] + ExprStrings(es[1..])
  }

  /** An absent value renders as nothing. */
  function OptExprString(e: Option<Expression>): string
    requires OptExprRenderable(e)
    decreases e
  {
    if e.Some? then ExprString(e.value) else ""
  }

  /** A statement's rendering. `let`, assignment and `return` start with
      their keyword's literal and end with `;`, with or without a value; an
      expression statement is its expression's text alone. A `while`
      statement renders with the keyword `if` (see `CorrectedWhileString`). */
  function StmtString(s: Statement): (r: string)
    requires StmtRenderable(s)
    ensures s.LetStatement? || s.AssignStatement? || s.ReturnStatement? ==>
      |r| > 0 && r[|r| - 1] == ';' && s.token.literal <= r
    ensures s.ExpressionStatement? ==> r == ExprString(s.expression.value)
    ensures s.WhileStatement? ==> "if" <= r
    decreases s
  {
    match s
    case LetStatement(tok, name, v) => tok.literal + " " + name.token.literal + " = " + OptExprString(v) + ";"
    case AssignStatement(tok, _, v) => tok.literal + " " + " = " + OptExprString(v) + ";"
    case ReturnStatement(tok, v) => tok.literal + (if v.Some? then " " + OptExprString(v) else "") + ";"
    case WhileStatement(_, c, cons) =>
      "if" + ExprString(c) + (if cons.Some? then " " + BlockString(cons.value) else "")
    case ExpressionStatement(_, e) => ExprString(e.value)
    case Block(b) => BlockString(b)
  }

  /** Statements render one after the other, with no separator. */
  function StatementsString(ss: seq<Statement>): (r: string)
    requires StatementsRenderable(ss)
    ensures ss == [] ==> r == ""
    ensures ss != [] ==> StmtString(ss[0]) <= r
    decreases ss
  {
    if ss == [] then "" else StmtString(ss[0]) + StatementsString(ss[1..])
  }

  /** A block renders as its statements, without braces. */
  function BlockString(b: BlockStatement): (r: string)
    requires BlockRenderable(b)
    ensures b.statements == [] ==> r == ""
    decreases b
  {
    StatementsString(b.statements)
  }

  /** A program renders as its statements, one after the other. */
  function ProgramString(p: Program): (r: string)
    requires StatementsRenderable(p.statements)
    ensures p.statements == [] ==> r == ""
    ensures p.statements != [] ==> StmtString(p.statements[0]) <= r
  {
    StatementsString(p.statements)
  }

  // ---------------------------------------------------------------------------
  // Properties of the rendering

  /**
   * Rendering a statement list is concatenation: the text of `a + b` is the
   * text of `a` followed by the text of `b`, with no separator. In particular
   * the Go builder loop, which appends one statement's text at a time, yields
   * `StatementsString`.
   */
  lemma {:induction false} StatementsStringAppend(a: seq<Statement>, b: seq<Statement>)
    requires StatementsRenderable(a) && StatementsRenderable(b)
    ensures StatementsRenderable(a + b)
    ensures StatementsString(a + b) == StatementsString(a) + StatementsString(b)
  {
    if a == [] {
      assert a + b == b;
    } else {
      assert (a + b)[1..] == a[1..] + b;
      StatementsStringAppend(a[1..], b);
    }
  }

  /** A program renders one statement after the other: appending a statement
      appends its text. */
  lemma ProgramStringSnoc(ss: seq<Statement>, s: Statement)
    requires StatementsRenderable(ss) && StmtRenderable(s)
    ensures StatementsRenderable(ss + [s])
    ensures ProgramString(Program(ss + [s])) == ProgramString(Program(ss)) + StmtString(s)
  {
    assert StatementsString([s]) == StmtString(s) + StatementsString([]);
    StatementsStringAppend(ss, [s]);
  }

  /** Go's `strings.Join` puts the separator between neighbours only; adding
      a part at the end adds one separator and the part. */
  lemma {:induction false} JoinSnoc(parts: seq<string>, p: string, sep: string)
    ensures Join(parts + [p], sep) == if parts == [] then p else Join(parts, sep) + sep + p
  {
    if |parts| > 1 {
      assert (parts + [p])[1..] == parts[1..] + [p];
      JoinSnoc(parts[1..], p, sep);
    } else if |parts| == 1 {
      assert (parts + [p])[1..] == [p];
    }
  }

  // --- Full parenthesisation of operator expressions

  /** The change in parenthesis depth across a string. */
  function Depth(s: string): int {
    if s == [] then 0
    else (if s[0] == '(' then 1 else if s[0] == ')' then -1 else 0) + Depth(s[1..])
  }

  /** The least depth reached over all prefixes of `s` (never above 0, the
      depth of the empty prefix). */
  function MinDepth(s: string): int {
    if s == [] then 0
    else
      var d := if s[0] == '(' then 1 else if s[0] == ')' then -1 else 0;
      if d + MinDepth(s[1..]) < 0 then d + MinDepth(s[1..]) else 0
  }

  /** Every `)` closes an earlier `(` and every `(` is closed. */
  predicate Balanced(s: string) {
    Depth(s) == 0 && MinDepth(s) == 0
  }

  /** `s` is one parenthesised group: its first `(` is closed by its last `)`. */
  predicate Wrapped(s: string) {
    |s| >= 2 && s[0] == '(' && s[|s| - 1] == ')' && Balanced(s[1..|s| - 1])
  }

  predicate NoParens(s: string) {
    forall i :: 0 <= i < |s| ==> s[i] != '(' && s[i] != ')'
  }

  /** An expression built from prefix and infix operators over leaves whose
      text holds no parenthesis. */
  predicate OperatorTree(e: Expression) {
    match e
    case IdentifierExpr(id) => NoParens(id.value)
    case IntegerLiteral(tok, _) => NoParens(tok.literal)
    case BooleanLiteral(tok, _) => NoParens(tok.literal)
    case PrefixExpression(_, op, r) => NoParens(op) && OperatorTree(r)
    case InfixExpression(_, l, op, r) => NoParens(op) && OperatorTree(l) && OperatorTree(r)
    case _ => false
  }

  lemma {:induction false} OperatorTreeRenderable(e: Expression)
    requires OperatorTree(e)
    ensures ExprRenderable(e)
  {
    match e
    case PrefixExpression(_, _, r) => OperatorTreeRenderable(r);
    case InfixExpression(_, l, _, r) => OperatorTreeRenderable(l); OperatorTreeRenderable(r);
    case _ =>
  }

  /**
   * Prefix and infix expressions render fully parenthesised: the text of an
   * operator tree is balanced, and the text of every operator node is a
   * single parenthesised group, so the grouping of the tree can be read
   * back from the text whatever the operators' precedences.
   */
  lemma {:induction false} FullyParenthesised(e: Expression)
    requires OperatorTree(e)
    ensures ExprRenderable(e)
    ensures Balanced(ExprString(e))
    ensures e.PrefixExpression? || e.InfixExpression? ==> Wrapped(ExprString(e))
  {
    OperatorTreeRenderable(e);
    match e
    case IdentifierExpr(id) => NoParensBalanced(id.value);
    case IntegerLiteral(tok, _) => NoParensBalanced(tok.literal);
    case BooleanLiteral(tok, _) => NoParensBalanced(tok.literal);
    case PrefixExpression(_, op, r) =>
      FullyParenthesised(r);
      PrefixGroup(op, ExprString(r));
    case InfixExpression(_, l, op, r) =>
      FullyParenthesised(l);
      FullyParenthesised(r);
      InfixGroup(ExprString(l), op, ExprString(r));
  }

  lemma PrefixGroup(op: string, r: string)
    requires NoParens(op) && Balanced(r)
    ensures Wrapped("(" + op + r + ")") && Balanced("(" + op + r + ")")
  {
    NoParensBalanced(op);
    BalancedAppend(op, r);
    WrapBalanced(op + r);
    assert "(" + op + r + ")" == "(" + (op + r) + ")";
  }

  lemma InfixGroup(l: string, op: string, r: string)
    requires Balanced(l) && NoParens(op) && Balanced(r)
    ensures var s := "(" + l + " " + op + " " + r + ")"; Wrapped(s) && Balanced(s)
  {
    var sep := " " + op + " ";
    assert NoParens(sep);
    NoParensBalanced(sep);
    BalancedAppend(l, sep);
    BalancedAppend(l + sep, r);
    WrapBalanced(l + sep + r);
    assert "(" + l + " " + op + " " + r + ")" == "(" + (l + sep + r) + ")";
  }

  lemma {:induction false} DepthMinAppend(a: string, b: string)
    ensures Depth(a + b) == Depth(a) + Depth(b)
    ensures MinDepth(a + b) == if MinDepth(a) < Depth(a) + MinDepth(b) then MinDepth(a) else Depth(a) + MinDepth(b)
  {
    if a == [] {
      assert a + b == b;
    } else {
      assert (a + b)[1..] == a[1..] + b;
      DepthMinAppend(a[1..], b);
    }
  }

  lemma {:induction false} NoParensBalanced(s: string)
    requires NoParens(s)
    ensures Balanced(s)
  {
    if s != [] {
      NoParensBalanced(s[1..]);
    }
  }

  lemma BalancedAppend(a: string, b: string)
    requires Balanced(a) && Balanced(b)
    ensures Balanced(a + b)
  {
    DepthMinAppend(a, b);
  }

  lemma WrapBalanced(inner: string)
    requires Balanced(inner)
    ensures Wrapped("(" + inner + ")") && Balanced("(" + inner + ")")
  {
    var s := "(" + inner + ")";
    assert s[1..|s| - 1] == inner;
    DepthMinAppend("(", inner + ")");
    DepthMinAppend(inner, ")");
    assert ("(" + inner + ")") == "(" + (inner + ")");
  }

  // --- The rendering of `while` statements (see the Findings in README.md)

  /** `WhileStatement.String` as evidently intended: with the keyword `while`. */
  function CorrectedWhileString(s: Statement): (r: string)
    requires s.WhileStatement? && StmtRenderable(s)
    ensures "while" <= r
  {
    "while" + ExprString(s.condition) + (if s.consequence.Some? then " " + BlockString(s.consequence.value) else "")
  }

  /** As written, a `while` statement and the expression statement holding an
      `if` with the same condition and body render to the same text. */
  lemma WhileRendersAsIf(tok: Token, cond: Expression, body: Option<BlockStatement>)
    requires ExprRenderable(cond) && (body.Some? ==> BlockRenderable(body.value))
    ensures var w := WhileStatement(tok, cond, body);
      var i := ExpressionStatement(tok, Some(IfExpression(tok, cond, body, None)));
      StmtRenderable(w) && StmtRenderable(i) && StmtString(w) == StmtString(i)
  {
  }

  /** With the `while` keyword, a `while` statement never renders like an
      expression statement holding an `if`. */
  lemma WhileRendersDistinctly(w: Statement, i: Statement)
    requires w.WhileStatement? && StmtRenderable(w)
    requires i.ExpressionStatement? && StmtRenderable(i) && i.expression.value.IfExpression?
    ensures CorrectedWhileString(w) != StmtString(i)
  {
    assert StmtString(i)[0] == 'i';
    assert CorrectedWhileString(w)[0] == 'w';
  }
}
