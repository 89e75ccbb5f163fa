/**
 * The parser (parser/parser.go): a two-token window (`currToken`,
 * `peekToken`) over the lexer, an append-only list of error messages, and
 * the prefix rules of the only two expression kinds it parses, identifiers
 * and integers.
 *
 * A `ParserState` is a snapshot of what the parser's methods change: the
 * two tokens, the lexer's cursor and the errors. The functions below say
 * what each Go method does to a snapshot, and the methods of class `Parser`
 * are proved to agree with them.
 *
 * The `let` and `return` rules skip tokens until a `;`. With no `;` left the
 * Go loop never ends: the lexer hands out EOF forever. The model detects the
 * state from which nothing changes any more (`Stuck`) and reports the hang
 * as a flag instead of looping.
 */
module Parser {

  import opened Wrappers
  import opened Token
  import opened Ast
  import Lexer
  import Strconv

  /** The binding powers of parser/parser.go:11-19; `parseExpression`
      receives one and does not use it. */
  datatype Precedence = Lowest | Equals | LessGreater | Sum | Product | Prefix

  /** The prefix rules a token type can be registered with. */
  datatype PrefixFn = ParseIdentifierFn | ParseIntegerLiteralFn

  /** The prefix rules `New` registers. */
  function RegisteredPrefixFns(): map<TokenType, PrefixFn> {
    map[Ident := ParseIdentifierFn, Int := ParseIntegerLiteralFn]
  }

  datatype ParserState = ParserState(curr: Token, peek: Token, pos: nat, errors: seq<string>)

  function PeekErrorMessage(expected: TokenType, got: TokenType): string {
    "expected next token to be " + TypeName(expected) + ", got " + TypeName(got) + " instead"
  }

  /** Go's `%q` of a digit string is the string in double quotes. */
  function IntegerErrorMessage(literal: string): string {
    "cannot parse \"" + literal + "\" as integer value"
  }

  /** `nextToken`: the peek token moves into the current slot and the lexer
      supplies the next one. */
  function Advance(input: seq<Byte>, st: ParserState): (r: ParserState)
    ensures r.curr == st.peek && r.errors == st.errors && r.pos > st.pos
  {
    var (tok, pos) := Lexer.NextTokenAt(input, st.pos);
    ParserState(st.peek, tok, pos, st.errors)
  }

  /** Both tokens are EOF and the lexer has run out of input: advancing
      changes neither token, ever again. */
  predicate Stuck(input: seq<Byte>, st: ParserState) {
    st.curr.tokenType == Eof && st.peek.tokenType == Eof && st.pos >= |input|
  }

  /** The two tokens satisfy what the lexer guarantees of its tokens. */
  predicate WellFormedState(st: ParserState) {
    Lexer.WellFormedToken(st.curr) && Lexer.WellFormedToken(st.peek)
  }

  /** A measure that every `nextToken` decreases, unless the parser is stuck. */
  function Progress(input: seq<Byte>, st: ParserState): nat {
    4 * (if st.pos <= |input| then |input| - st.pos else 0)
    + 2 * (if st.peek.tokenType == Eof then 0 else 1)
    + (if st.curr.tokenType == Eof then 0 else 1)
  }

  /**
   * Advancing never increases the measure and strictly decreases it unless
   * the parser is stuck; a stuck parser stays stuck.
   * So a loop that advances until some token arrives either sees it or
   * reaches the stuck state, where it would spin forever.
   */
  lemma AdvanceProgress(input: seq<Byte>, st: ParserState)
    ensures var st1 := Advance(input, st);
      && Progress(input, st1) <= Progress(input, st)
      && (!Stuck(input, st) ==> Progress(input, st1) < Progress(input, st))
      && (Stuck(input, st) ==> Stuck(input, st1) && st1.errors == st.errors)
      && (WellFormedState(st) ==> WellFormedState(st1))
  {
    Lexer.NextTokenConsumes(input, st.pos);
    Lexer.NextTokenWellFormed(input, st.pos);
  }

  /** The skip loop of `let` and `return`: advance until the current token
      is `;`; the flag reports that no `;` ever comes. */
  function SkipToSemicolon(input: seq<Byte>, st: ParserState): (r: (ParserState, bool))
    ensures r.0.errors == st.errors
    ensures Progress(input, r.0) <= Progress(input, st)
    ensures !r.1 ==> r.0.curr.tokenType == Semicolon
    ensures r.1 ==> Stuck(input, r.0)
    ensures WellFormedState(st) ==> WellFormedState(r.0)
    decreases Progress(input, st)
  {
    if st.curr.tokenType == Semicolon then (st, false)
    else if Stuck(input, st) then (st, true)
    else
      AdvanceProgress(input, st);
      SkipToSemicolon(input, Advance(input, st))
  }

  /** `parseLetStatement`: `let` must be followed by an identifier, which
      names the binding; the value is not parsed but skipped up to `;`.
      Without the identifier one error is recorded and the result is a nil
      statement. */
  function ParsedLet(input: seq<Byte>, st: ParserState): (r: (Statement, ParserState, bool))
    ensures r.0.LetStatement? <==> st.peek.tokenType == Ident
    ensures r.0.LetStatement? ==>
      && r.0 == LetStatement(st.curr, Identifier(st.peek, st.peek.literal), None)
      && r.1.errors == st.errors
      && (r.2 || r.1.curr.tokenType == Semicolon)
    ensures !r.0.LetStatement? ==>
      r.0 == NilLetStatement && !r.2 &&
      r.1 == st.(errors := st.errors + [PeekErrorMessage(Ident, st.peek.tokenType)])
  {
    if st.peek.tokenType == Ident then
      var st1 := Advance(input, st);
      var name := Identifier(st1.curr, st1.curr.literal);
      var (st2, hangs) := SkipToSemicolon(input, st1);
      (LetStatement(st.curr, name, None), st2, hangs)
    else
      (NilLetStatement, st.(errors := st.errors + [PeekErrorMessage(Ident, st.peek.tokenType)]), false)
  }

  /** `parseReturnStatement`: the value is not parsed but skipped up to `;`. */
  function ParsedReturn(input: seq<Byte>, st: ParserState): (r: (Statement, ParserState, bool))
    ensures r.0 == ReturnStatement(st.curr, None)
    ensures r.1.errors == st.errors
    ensures r.2 || r.1.curr.tokenType == Semicolon
  {
    var (st1, hangs) := SkipToSemicolon(input, st);
    (ReturnStatement(st.curr, None), st1, hangs)
  }

  /** `parseExpression`: the prefix rule of the current token, if it has
      one. An identifier is named by its literal; an integer literal is read
      by `strconv.ParseInt` with base prefix detection, and a literal it
      rejects records one error but still yields a node. */
  function ParsedExpression(st: ParserState): (r: (Option<Expression>, ParserState))
    requires WellFormedState(st)
    ensures r.0.None? <==> st.curr.tokenType !in RegisteredPrefixFns()
    ensures r.0.None? ==> r.1 == st
    ensures st.curr.tokenType == Ident ==>
      r.0 == Some(IdentifierExpr(Identifier(st.curr, st.curr.literal))) && r.1 == st
    ensures st.curr.tokenType == Int ==>
      r.0.Some? && r.0.value.IntegerLiteral? && r.0.value.token == st.curr &&
      r.1 == (if Strconv.ParseInt(st.curr.literal).1 then st
              else st.(errors := st.errors + [IntegerErrorMessage(st.curr.literal)]))
  {
    if st.curr.tokenType == Ident then
      (Some(IdentifierExpr(Identifier(st.curr, st.curr.literal))), st)
    else if st.curr.tokenType == Int then
      var (value, ok) := Strconv.ParseInt(st.curr.literal);
      (Some(IntegerLiteral(st.curr, value)),
       if ok then st else st.(errors := st.errors + [IntegerErrorMessage(st.curr.literal)]))
    else
      (None, st)
  }

  /** `parseExpressionStatement`: the expression, then a `;` is consumed
      only when it is the peek token. */
  function ParsedExpressionStatement(input: seq<Byte>, st: ParserState): (r: (Statement, ParserState))
    requires WellFormedState(st)
    ensures r.0.ExpressionStatement? && r.0.token == st.curr
    ensures r.0.expression == ParsedExpression(st).0
    ensures st.peek.tokenType == Semicolon ==> r.1.curr.tokenType == Semicolon
    ensures st.peek.tokenType != Semicolon ==> r.1.curr == st.curr && r.1.pos == st.pos
    ensures st.errors <= r.1.errors
    ensures WellFormedState(r.1) && Progress(input, r.1) <= Progress(input, st)
  {
    var (e, st1) := ParsedExpression(st);
    AdvanceProgress(input, st1);
    var st2 := if st1.peek.tokenType == Semicolon then Advance(input, st1) else st1;
    (ExpressionStatement(st.curr, e), st2)
  }

  /** The statements this parser can build: a `let` or `return` without a
      value (values are skipped, not parsed), a nil `let`, or an expression
      statement holding nothing, an identifier or an integer literal. */
  predicate ParserOutput(s: Statement) {
    match s
    case NilLetStatement => true
    case LetStatement(_, _, v) => v.None?
    case ReturnStatement(_, v) => v.None?
    case ExpressionStatement(_, e) => e.None? || e.value.IdentifierExpr? || e.value.IntegerLiteral?
    case _ => false
  }

  /** `parseStatement`: dispatch on the current token. */
  function ParsedStatement(input: seq<Byte>, st: ParserState): (r: (Statement, ParserState, bool))
    requires WellFormedState(st)
    ensures WellFormedState(r.1)
    ensures st.errors <= r.1.errors
    ensures Progress(input, r.1) <= Progress(input, st)
    ensures r.2 ==> Stuck(input, r.1)
    ensures !r.2 && st.curr.tokenType != Eof ==> r.1.curr.tokenType != Eof
    ensures r.0.NilLetStatement? ==> |r.1.errors| > |st.errors|
    ensures !r.0.NilLetStatement? ==> StmtTokenLiteral(r.0) == st.curr.literal
    ensures ParserOutput(r.0)
  {
    if st.curr.tokenType == Let then
      AdvanceProgress(input, st);
      ParsedLet(input, st)
    else if st.curr.tokenType == Return then
      ParsedReturn(input, st)
    else
      var (s, st1) := ParsedExpressionStatement(input, st);
      (s, st1, false)
  }

  /** `ParseProgram` from a state, with the statements parsed so far: one
      statement per iteration until the current token is EOF. The flag
      reports a statement that never finishes. */
  function ParsedProgram(input: seq<Byte>, st: ParserState, stmts: seq<Statement>): (r: (seq<Statement>, ParserState, bool))
    requires WellFormedState(st)
    ensures stmts <= r.0
    ensures forall i :: |stmts| <= i < |r.0| ==> ParserOutput(r.0[i])
    ensures st.errors <= r.1.errors
    ensures !r.2 ==> r.1.curr.tokenType == Eof
    ensures r.2 ==> Stuck(input, r.1)
    decreases Progress(input, st)
  {
    if st.curr.tokenType == Eof then (stmts, st, false)
    else
      var (s, st1, hangs) := ParsedStatement(input, st);
      if hangs then (stmts, st1, true)
      else
        AdvanceProgress(input, st1);
        var st2 := Advance(input, st1);
        var r := ParsedProgram(input, st2, stmts + [s]);
        OutputsSnoc(stmts, s, r.0);
        assert st.errors <= st1.errors == st2.errors <= r.1.errors;
        r
  }

  /** The statements after `stmts` are parser output when `s` is and the
      ones after `stmts + [s]` are. */
  lemma OutputsSnoc(stmts: seq<Statement>, s: Statement, all: seq<Statement>)
    requires stmts + [s] <= all && ParserOutput(s)
    requires forall i :: |stmts| + 1 <= i < |all| ==> ParserOutput(all[i])
    ensures stmts <= all
    ensures forall i :: |stmts| <= i < |all| ==> ParserOutput(all[i])
  {
    assert all[|stmts|] == (stmts + [s])[|stmts|];
  }

  /** One iteration of `ParseProgram`'s loop. */
  lemma ProgramStep(input: seq<Byte>, st: ParserState, stmts: seq<Statement>)
    requires WellFormedState(st) && st.curr.tokenType != Eof
    ensures var (s, st1, hangs) := ParsedStatement(input, st);
      && (hangs ==> ParsedProgram(input, st, stmts) == (stmts, st1, true))
      && (!hangs ==>
            && WellFormedState(Advance(input, st1))
            && Advance(input, st1).errors == st1.errors
            && Progress(input, Advance(input, st1)) < Progress(input, st)
            && ParsedProgram(input, st, stmts) == ParsedProgram(input, Advance(input, st1), stmts + [s]))
  {
    var (s, st1, hangs) := ParsedStatement(input, st);
    AdvanceProgress(input, st1);
  }

  /**
   * A parse that records no error produces no nil statement: every failed
   * `let` records one error, and errors are never removed.
   */
  lemma {:induction false} ErrorFreeParseHasNoNilLet(input: seq<Byte>, st: ParserState, stmts: seq<Statement>)
    requires WellFormedState(st)
    requires forall i :: 0 <= i < |stmts| ==> !stmts[i].NilLetStatement?
    ensures var r := ParsedProgram(input, st, stmts);
      r.1.errors == st.errors ==> forall i :: 0 <= i < |r.0| ==> !r.0[i].NilLetStatement?
    decreases Progress(input, st)
  {
    if st.curr.tokenType != Eof {
      ProgramStep(input, st, stmts);
      var (s, st1, hangs) := ParsedStatement(input, st);
      if !hangs {
        var st2 := Advance(input, st1);
        var r := ParsedProgram(input, st2, stmts + [s]);
        if r.1.errors == st.errors {
          assert st.errors <= st1.errors <= r.1.errors;
          NoNilLetSnoc(stmts, s);
          ErrorFreeParseHasNoNilLet(input, st2, stmts + [s]);
        }
      }
    }
  }

  lemma NoNilLetSnoc(stmts: seq<Statement>, s: Statement)
    requires forall i :: 0 <= i < |stmts| ==> !stmts[i].NilLetStatement?
    requires !s.NilLetStatement?
    ensures forall i :: 0 <= i < |stmts + [s]| ==> !(stmts + [s])[i].NilLetStatement?
  {
  }

  /**
   * The program is empty exactly when the input starts at EOF or its first
   * statement never finishes; otherwise its token literal is that of the
   * first token, unless the first statement is a failed `let`.
   */
  lemma ProgramStartsWithFirstToken(input: seq<Byte>, st: ParserState)
    requires WellFormedState(st)
    ensures var stmts := ParsedProgram(input, st, []).0;
      && (stmts == [] <==> st.curr.tokenType == Eof || ParsedStatement(input, st).2)
      && (stmts != [] && !stmts[0].NilLetStatement? ==> ProgramTokenLiteral(Program(stmts)) == st.curr.literal)
  {
    if st.curr.tokenType != Eof && !ParsedStatement(input, st).2 {
      FirstStatementIsParsedStatement(input, st);
    }
  }

  /** When the first statement finishes, it heads the program. */
  lemma FirstStatementIsParsedStatement(input: seq<Byte>, st: ParserState)
    requires WellFormedState(st) && st.curr.tokenType != Eof && !ParsedStatement(input, st).2
    ensures var stmts := ParsedProgram(input, st, []).0;
      stmts != [] && stmts[0] == ParsedStatement(input, st).0
  {
    var (s, st1, hangs) := ParsedStatement(input, st);
    AdvanceProgress(input, st1);
    var r := ParsedProgram(input, Advance(input, st1), [] + [s]);
    assert ParsedProgram(input, st, []) == r;
    assert [s] <= r.0;
  }

  /**
   * An integer literal without a leading zero is read in decimal: a value
   * that fits in int64 is taken with no error; a larger one becomes the
   * int64 maximum and records `cannot parse "..." as integer value`.
   */
  lemma DecimalIntegerLiteral(st: ParserState)
    requires WellFormedState(st) && st.curr.tokenType == Int && st.curr.literal[0] != '0'
    ensures var n := Strconv.DecimalValue(st.curr.literal);
      var (e, st1) := ParsedExpression(st);
      && e.Some? && e.value.IntegerLiteral? && e.value.token == st.curr
      && (n <= Int64.Max ==> e.value.intValue == n && st1 == st)
      && (n > Int64.Max ==>
            e.value.intValue == Int64.Max && st1.errors == st.errors + [IntegerErrorMessage(st.curr.literal)])
  {
    Strconv.DecimalParse(st.curr.literal);
  }

  class Parser {
    const l: Lexer.Lexer
    var currToken: Token
    var peekToken: Token
    var errors: seq<string>
    var prefixParseFns: map<TokenType, PrefixFn>

    /** What the parser's methods change, as a value. */
    function State(): ParserState
      reads this, l
    {
      ParserState(currToken, peekToken, l.currPosition, errors)
    }

    ghost predicate Valid()
      reads this, l
    {
      l.Valid() && prefixParseFns == RegisteredPrefixFns() && WellFormedState(State())
    }

    /** Registers the two prefix rules and reads the first two tokens. The
        tokens before that are placeholders (Go's zero `Token`). */
    constructor New(l: Lexer.Lexer)
      requires l.Valid()
      modifies l
      ensures Valid() && this.l == l && errors == []
      ensures var (first, pos) := Lexer.NextTokenAt(l.input, old(l.currPosition));
        currToken == first && (peekToken, l.currPosition) == Lexer.NextTokenAt(l.input, pos)
    {
      this.l := l;
      errors := [];
      prefixParseFns := map[];
      currToken := Token(Illegal, "");
      peekToken := Token(Illegal, "");
      new;
      RegisterPrefixFn(Ident, ParseIdentifierFn);
      RegisterPrefixFn(Int, ParseIntegerLiteralFn);
      NextToken();
      NextToken();
    }

    function Errors(): seq<string>
      reads this
    {
      errors
    }

    /** Records that the peek token is not of the expected type. */
    method PeekError(t: TokenType)
      modifies this`errors
      ensures errors == old(errors) + [PeekErrorMessage(t, peekToken.tokenType)]
    {
      errors := errors + [PeekErrorMessage(t, peekToken.tokenType)];
    }

    method RegisterPrefixFn(tokenType: TokenType, fn: PrefixFn)
      modifies this`prefixParseFns
      ensures prefixParseFns == old(prefixParseFns)[tokenType := fn]
    {
      prefixParseFns := prefixParseFns[tokenType := fn];
    }

    /** Shifts the window by one token and pulls exactly one token from the lexer. */
    method NextToken()
      requires Valid()
      modifies this, l
      ensures Valid() && State() == Advance(l.input, old(State()))
    {
      AdvanceProgress(l.input, State());
      currToken := peekToken;
      peekToken := l.NextToken();
    }

    predicate CurrTokenIs(t: TokenType)
      reads this
    {
      currToken.tokenType == t
    }

    predicate PeekTokenIs(t: TokenType)
      reads this
    {
      peekToken.tokenType == t
    }

    /** On a matching peek token, advances and records nothing; otherwise
        records one error and leaves both tokens where they are. */
    method ExpectPeek(t: TokenType) returns (ok: bool)
      requires Valid()
      modifies this, l
      ensures Valid()
      ensures ok <==> old(peekToken.tokenType) == t
      ensures ok ==> State() == Advance(l.input, old(State()))
      ensures !ok ==> State() == old(State()).(errors := old(errors) + [PeekErrorMessage(t, old(peekToken.tokenType))])
    {
      if PeekTokenIs(t) {
        NextToken();
        return true;
      }
      PeekError(t);
      return false;
    }

    /** Parses statements until the current token is EOF. */
    method ParseProgram() returns (program: Program, hangs: bool)
      requires Valid()
      modifies this, l
      ensures Valid() && (program.statements, State(), hangs) == ParsedProgram(l.input, old(State()), [])
    {
      var statements: seq<Statement> := [];
      while currToken.tokenType != Eof
        invariant Valid()
        invariant ParsedProgram(l.input, State(), statements) == ParsedProgram(l.input, old(State()), [])
        decreases Progress(l.input, State())
      {
        ghost var st := State();
        var stmt, stuck := ParseStatement();
        if stuck {
          return Program(statements), true;
        }
        statements := statements + [stmt];
        AdvanceProgress(l.input, State());
        NextToken();
        assert Progress(l.input, State()) < Progress(l.input, st);
      }
      return Program(statements), false;
    }

    method ParseStatement() returns (stmt: Statement, hangs: bool)
      requires Valid()
      modifies this, l
      ensures Valid() && (stmt, State(), hangs) == ParsedStatement(l.input, old(State()))
    {
      if currToken.tokenType == Let {
        stmt, hangs := ParseLetStatement();
      } else if currToken.tokenType == Return {
        stmt, hangs := ParseReturnStatement();
      } else {
        stmt := ParseExpressionStatement();
        hangs := false;
      }
    }

    method ParseLetStatement() returns (stmt: Statement, hangs: bool)
      requires Valid()
      modifies this, l
      ensures Valid() && (stmt, State(), hangs) == ParsedLet(l.input, old(State()))
    {
      var tok := currToken;
      var ok := ExpectPeek(Ident);
      if !ok {
        return NilLetStatement, false;
      }
      var name := Identifier(currToken, currToken.literal);
      ghost var named := State();
      hangs := false;
      while !CurrTokenIs(Semicolon)
        invariant Valid()
        invariant SkipToSemicolon(l.input, State()) == SkipToSemicolon(l.input, named)
        decreases Progress(l.input, State())
      {
        if Stuck(l.input, State()) {
          hangs := true;
          break;
        }
        AdvanceProgress(l.input, State());
        NextToken();
      }
      stmt := LetStatement(tok, name, None);
    }

    method ParseReturnStatement() returns (stmt: Statement, hangs: bool)
      requires Valid()
      modifies this, l
      ensures Valid() && (stmt, State(), hangs) == ParsedReturn(l.input, old(State()))
    {
      stmt := ReturnStatement(currToken, None);
      ghost var start := State();
      hangs := false;
      while !CurrTokenIs(Semicolon)
        invariant Valid()
        invariant SkipToSemicolon(l.input, State()) == SkipToSemicolon(l.input, start)
        decreases Progress(l.input, State())
      {
        if Stuck(l.input, State()) {
          hangs := true;
          break;
        }
        AdvanceProgress(l.input, State());
        NextToken();
      }
    }

    method ParseExpressionStatement() returns (stmt: Statement)
      requires Valid()
      modifies this, l
      ensures Valid() && (stmt, State()) == ParsedExpressionStatement(l.input, old(State()))
    {
      var tok := currToken;
      var expression := ParseExpression(Lowest);
      if PeekTokenIs(Semicolon) {
        NextToken();
      }
      stmt := ExpressionStatement(tok, expression);
    }

    /** Applies the prefix rule registered for the current token, if any;
        the precedence is not used. */
    method ParseExpression(precedence: Precedence) returns (e: Option<Expression>)
      requires Valid()
      modifies this`errors
      ensures Valid() && (e, State()) == ParsedExpression(old(State()))
    {
      if currToken.tokenType !in prefixParseFns {
        return None;
      }
      assert currToken.tokenType == Ident || currToken.tokenType == Int;
      var leftExp: Expression;
      match prefixParseFns[currToken.tokenType] {
        case ParseIdentifierFn =>
          leftExp := ParseIdentifier();
        case ParseIntegerLiteralFn =>
          assert currToken.tokenType == Int;
          leftExp := ParseIntegerLiteral();
          ghost var parsed := Strconv.ParseInt(currToken.literal);
          assert State() == (if parsed.1 then old(State()) else old(State()).(errors := old(errors) + [IntegerErrorMessage(currToken.literal)]));
      }
      return Some(leftExp);
    }

    method ParseIdentifier() returns (e: Expression)
      ensures e.IdentifierExpr? && e.ident.token == currToken && e.ident.value == currToken.literal
    {
      return IdentifierExpr(Identifier(currToken, currToken.literal));
    }

    method ParseIntegerLiteral() returns (e: Expression)
      requires Valid() && currToken.tokenType == Int
      modifies this`errors
      ensures Valid()
      ensures var (value, ok) := Strconv.ParseInt(currToken.literal);
        && e == IntegerLiteral(currToken, value)
        && errors == old(errors) + (if ok then [] else [IntegerErrorMessage(currToken.literal)])
    {
      var (intValue, ok) := Strconv.ParseInt(currToken.literal);
      if !ok {
        ParseIntegerError();
      }
      return IntegerLiteral(currToken, intValue);
    }

    method ParseIntegerError()
      modifies this`errors
      ensures errors == old(errors) + [IntegerErrorMessage(currToken.literal)]
    {
      errors := errors + [IntegerErrorMessage(currToken.literal)];
    }
  }
}
