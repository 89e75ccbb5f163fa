# Monkey interpreter core in Dafny

This project models the pipeline of the Monkey interpreter written in Go:
source text → lexer → parser → AST → evaluator → run-time objects.

- **Token** (`token.dfy`): token kinds and the keyword table. The Go `token` package is not part of this model. Its kinds are the ones the lexer emits. Its keywords are `fn`, `let`, `true`, `false`, `if`, `else` and `return`.
- **Lexer** (`lexer.dfy`):
  - `NextTokenAt(input, pos)` is the token the cursor yields at `pos`, with the position it moves to.
  - The class `Lexer` holds the Go cursor fields `currPosition`, `nextPosition` and `ch`. Its methods update them in place with the Go loops, and `Lexer.NextToken` is proved to agree with `NextTokenAt`.
- **Strconv** and **Int64** (`strconv.dfy`, `int64.dfy`):
  - `strconv.ParseInt(s, 0, 64)` on digit strings, including the leading-`0` octal rule and the out-of-range result.
  - The decimal rendering of `fmt.Sprint` for integers.
  - Go's wrapping int64 arithmetic, with division truncating toward zero.
- **Ast** (`ast.dfy`):
  - One datatype per node family.
  - `TokenLiteral` and `String` as recursive functions.
  - Lemmas on concatenation and full parenthesisation of the rendering.
- **Parser** (`parser.dfy`):
  - A `ParserState` is a snapshot of the two-token window, the lexer position and the error list.
  - The functions `Advance`, `ParsedLet`, `ParsedReturn`, `ParsedExpression`, `ParsedExpressionStatement`, `ParsedStatement` and `ParsedProgram` say what each Go method does to a snapshot.
  - The class `Parser` holds the Go fields, and each of its methods is proved to agree with its function.
- **Object** (`object.dfy`):
  - The run-time values, with `Type` and `Inspect`.
  - The environment, as a class over a map.
- **Evaluator** (`evaluator.dfy`):
  - `ExprResult`, `StmtResult`, `BlockResult` and `ProgramResult` give the outcome of evaluating a node and the environment afterwards.
  - The outcome is an object, nil, or a Go run-time panic.
  - The `Eval...` methods update an `Environment` in place and run the early-exit loops of `evalBlockStatement` and `evalProgram`. Each is proved to agree with its function.
- **Pipeline** (`pipeline.dfy`): a program that parses without errors evaluates without a run-time panic.

Where the code does less than the Monkey language design, the model follows the code:

- The lexer has no string literals. A `"` is an `ILLEGAL` token.
- A NUL byte in the input yields an `EOF` token, whose literal is that NUL byte.
- The parser registers prefix rules only for identifiers and integers.
- The parser records no error for a token without a prefix rule.
- The parser ignores precedence.
- The parser skips the values of `let` and `return` up to the next `;` without parsing them.
- A `let` or `return` with no `;` after it makes the Go parser loop forever. The model detects the state from which nothing changes any more and returns a `hangs` flag instead.
- A `let` not followed by an identifier yields a nil `*LetStatement` (`NilLetStatement`). Evaluating that node panics.

## Model

| member | source | states |
|---|---|---|
| Lexer.SkipWhitespaceFrom | lexer/lexer.go:128-134 | the position reached is the first non-whitespace byte at or after the start; every byte skipped is space, tab, CR or LF |
| Lexer.RunEnd | lexer/lexer.go:172-184 | the run ends at the first byte outside the class; every byte before it is in the class |
| Lexer.SingleByteType | lexer/lexer.go:51-101 | the one-byte cases start no other kind of token, so the order of the switch does not matter; the kind is EOF exactly for the 0 byte; every other kind is named by its own byte |
| Lexer.ScanToken | lexer/lexer.go:30-121 | a token consumes at least one position; inside the input its literal is exactly the bytes consumed; it is EOF exactly at a 0 byte or past the end, where its literal is the 0 byte |
| Lexer.NextTokenAt | lexer/lexer.go:25-126 | the cursor always moves forward, and the token is EOF exactly when the first byte after the whitespace is 0 or past the end |
| Token.LookupIdent | lexer/lexer.go:104-109 | a word gets a keyword kind exactly when it is `fn`, `let`, `true`, `false`, `if`, `else` or `return`; every other word is an identifier |
| Lexer.NextTokenConsumes | lexer/lexer.go:25-126 | a token's literal is exactly the input slice it consumed after the skipped whitespace, and it consumes at least one byte; once the input is exhausted every call yields EOF with literal NUL |
| Lexer.NextTokenWellFormed | lexer/lexer.go:104-115 | INT literals are non-empty digit runs; identifier and keyword literals are non-empty letter runs |
| Lexer.WhitespaceIsSkipped | lexer/lexer.go:27 | starting on a whitespace byte yields the same token as starting after it, so whitespace is never emitted |
| Lexer.TwoByteOperators | lexer/lexer.go:31-50 | `=`/`!` followed by `=` give one EQ/NOT_EQ token `==`/`!=` over two bytes; otherwise one ASSIGN/BANG token over one byte |
| Lexer.IdentifierMaximalMunch | lexer/lexer.go:104-109 | an identifier is the maximal run of letters and `_`; its kind comes from the keyword table |
| Lexer.IntegerMaximalMunch | lexer/lexer.go:111-115 | an integer is the maximal run of decimal digits, with that slice as its literal |
| Lexer.IllegalByte | lexer/lexer.go:116-119 | any other byte is an ILLEGAL token holding that one byte |
| Lexer.LexingDropsOnlyWhitespace | lexer/lexer.go:25-133 | the literals of all tokens, in order, spell out the input with its whitespace removed |
| Lexer.Lexer.New | lexer/lexer.go:14-23 | the new lexer has its cursor at 0 and the cursor invariant holds |
| Lexer.Lexer.ReadChar | lexer/lexer.go:136-146 | the cursor moves to the next position, the next position is one further, and the current byte is the input's byte there or 0 past the end |
| Lexer.Lexer.PeekChar | lexer/lexer.go:148-154 | the byte at the next position, or 0 past the end, with nothing changed |
| Lexer.Lexer.SkipWhitespace | lexer/lexer.go:128-134 | the cursor ends where `SkipWhitespaceFrom` says |
| Lexer.Lexer.GetTextEntity | lexer/lexer.go:172-184 | the cursor ends where `RunEnd` says, and the result is the input slice passed over |
| Lexer.Lexer.NextToken | lexer/lexer.go:25-126 | the token returned and the new cursor are `NextTokenAt` of the old cursor |
| Strconv.ParseInt | parser/parser.go:165 | a successful parse is non-negative; a failed one yields 0 (syntax error) or the int64 maximum (out of range) |
| Strconv.DecimalParse | parser/parser.go:165 | a digit string without a leading zero parses to its decimal value when that fits in int64; otherwise to the int64 maximum with an error |
| Strconv.OctalRejectsEightOrNine | parser/parser.go:165 | with base detection, any literal of a `0` followed by an `8` or a `9` is a syntax error that yields 0 |
| Strconv.OctalRejectsNine | parser/parser.go:165 | two examples: `09` is rejected and yields 0, while `017` is octal 15 |
| Strconv.FormatParseRoundTrip | object/object.go:24-26 | the decimal rendering of a non-negative int64 parses back to it |
| Strconv.FormatInt | object/object.go:24-26 | a non-negative integer renders as digits whose decimal value is the integer; a negative one as `-` followed by the digits of its magnitude |
| Int64.Add | evaluator/evaluator.go:192-193 | the sum is the exact sum modulo 2^64, and exact when it fits in int64 |
| Int64.Sub | evaluator/evaluator.go:194-195 | the difference is the exact difference modulo 2^64, and exact when it fits in int64 |
| Int64.Mul | evaluator/evaluator.go:196-197 | the product is the exact product modulo 2^64, and exact when it fits in int64 |
| Int64.Neg | evaluator/evaluator.go:171 | negation is exact except for the int64 minimum, which wraps to itself |
| Int64.Div | evaluator/evaluator.go:198-199 | the quotient truncates toward zero, except that min / -1 wraps to min |
| Ast.IdentifierValues | ast/ast.go:293-296 | one name per parameter, in order |
| Ast.StatementsStringAppend | ast/ast.go:35-41 | rendering a statement list is concatenation with no separator |
| Ast.ProgramStringSnoc | ast/ast.go:35-41 | appending a statement to a program appends its rendering to the program's |
| Ast.JoinSnoc | ast/ast.go:300 | `strings.Join` puts the separator between neighbouring parts only |
| Ast.ExprTokenLiteral | ast/ast.go:74-79 | an identifier expression's token is the identifier's; identifiers named by their token, integers and booleans render as their token literal |
| Ast.StmtTokenLiteral | ast/ast.go:53-132 | the rendering of a `let`, assignment or `return` statement begins with its token literal |
| Ast.ProgramTokenLiteral | ast/ast.go:28-33 | an empty program's literal is empty; otherwise it begins the program's rendering when the first statement is a `let`, assignment or `return` |
| Ast.ExprString | ast/ast.go:187-262 | prefix and infix expressions are wrapped in one pair of parentheses; an `if` expression starts with `if` |
| Ast.StmtString | ast/ast.go:56-161 | `let`, assignment and `return` statements begin with their token literal and end with `;`, with or without a value; an expression statement renders as its expression; a `while` statement starts with `if`, as written |
| Ast.StatementsString | ast/ast.go:35-41 | no statements render as nothing; otherwise the text begins with the first statement's |
| Ast.BlockString | ast/ast.go:275-283 | an empty block renders as nothing: a block has no braces |
| Ast.ProgramString | ast/ast.go:35-41 | an empty program renders as nothing; otherwise the text begins with the first statement's |
| Ast.FullyParenthesised | ast/ast.go:187-216 | a tree of prefix and infix operators over literals renders with balanced parentheses, and each operator node is wrapped in one pair of parentheses around balanced text |
| Ast.WhileRendersAsIf | ast/ast.go:133-144 | as written (`StmtString`), a `while` statement renders exactly like an expression statement holding an `if` with the same condition and body |
| Ast.CorrectedWhileString | ast/ast.go:133-144 | with the intended keyword, a `while` statement's rendering starts with `while` |
| Ast.WhileRendersDistinctly | ast/ast.go:133-144 | with the `while` keyword (`CorrectedWhileString`), no `while` statement renders like an `if` expression statement |
| Object.TypeNamesDistinct | object/object.go:7-13 | two tags have the same name (`TypeName`) exactly when they are the same tag |
| Object.Inspect | object/object.go:24-76 | every object renders to non-empty text; a boolean under any markers renders as `true` exactly when it holds |
| Object.Type | object/object.go:28-72 | each variant reports its own tag, and no other variant reports it |
| Object.Unwrapped | object/object.go:58-60 | the value under all `Return` markers is not a marker |
| Object.InspectSeesThroughReturns | object/object.go:58-60 | any number of `Return` markers renders as the value they wrap |
| Object.IntegerInspectDecimal | object/object.go:24-26 | an integer renders in decimal: a non-negative one parses back to itself, and a negative one is `-` and its magnitude's digits |
| Object.ErrorsRenderWithPrefix | object/object.go:74-76 | a rendering starts with `ERROR: ` exactly when the value under its markers is an error |
| Object.Environment.Get | evaluator/evaluator.go:233 | a bound name yields its value with `ok`; an unbound one yields nil without `ok` |
| Object.Environment.Set | evaluator/evaluator.go:32 | the binding of the name is replaced and nothing else changes |
| Evaluator.IsTruthy | evaluator/evaluator.go:106-117 | only null and false are falsy; integer 0 and nil are truthy |
| Evaluator.NativeBoolToBooleanObj | evaluator/evaluator.go:214-219 | the shared boolean of the same truth value |
| Evaluator.EvalBang | evaluator/evaluator.go:151-162 | `!x` is the shared boolean of the negated truthiness of `x` |
| Evaluator.EvalMinus | evaluator/evaluator.go:164-172 | `-` negates an integer modulo 2^64, gives `unknown operator: -TYPE` on other objects, and panics on nil |
| Evaluator.EvalPrefix | evaluator/evaluator.go:138-149 | `!` is the boolean of negated truthiness and `-` is unary minus; any other operator panics on nil and otherwise is the error `unknown operator: OP TYPE` |
| Evaluator.EvalIntegerInfix | evaluator/evaluator.go:187-212 | it panics exactly on division by zero; arithmetic gives an integer, comparisons a boolean, and any other operator null |
| Evaluator.Identical | evaluator/evaluator.go:179-182 | identical objects are equal, and for booleans and null identity is equality |
| Evaluator.EvalInfix | evaluator/evaluator.go:174-185 | two integers go to the integer operators; otherwise `==`/`!=` give the boolean of identity or its negation and other operators the error `unknown operator: LEFT OP RIGHT` with the operands' type names; a nil operand panics where Go asks it for its type |
| Evaluator.LookupIdentifier | evaluator/evaluator.go:232-238 | a bound name yields its binding; an unbound one yields the error `identifier not found: NAME` |
| Evaluator.ExprResult | evaluator/evaluator.go:15-76 | evaluating an expression never removes a binding, and identifiers and literals leave the environment as it is |
| Evaluator.OptExprResult | evaluator/evaluator.go:15-76 | a nil expression matches no node kind: it yields nil and leaves the environment as it is; no evaluation removes a binding |
| Evaluator.StmtResult | evaluator/evaluator.go:27-32 | evaluating a statement never removes a binding; a `let` whose value does not abort binds its name to exactly that value in the environment the value left, and yields nil; a `let` whose value is an error or panic binds nothing and passes it on |
| Evaluator.BlockResult | evaluator/evaluator.go:78-88 | running a block never removes a binding |
| Evaluator.ProgramResult | evaluator/evaluator.go:119-136 | running a program never removes a binding |
| Evaluator.Unwrap | evaluator/evaluator.go:124-130 | only a `Return` marker is replaced by its value; panics stay panics and the environment is unchanged |
| Evaluator.BangIsNegation | evaluator/evaluator.go:151-162 | `!` flips truthiness, and `!!x` is the boolean of `x`'s truthiness |
| Evaluator.MinusInvolutive | evaluator/evaluator.go:164-172 | negating an integer twice gives it back, the int64 minimum included |
| Evaluator.EqualityComplement | evaluator/evaluator.go:174-185 | `==` and `!=` panic on the same operands and otherwise give opposite booleans |
| Evaluator.IntegerInfixLaws | evaluator/evaluator.go:187-212 | on integers `<` mirrors `>`, `+` and `*` commute, division panics exactly on a zero divisor, and a quotient truncates toward zero |
| Evaluator.LeftFailureShortCircuits | evaluator/evaluator.go:47-56 | an error or panic on the left is the infix result, and the right operand is not evaluated |
| Evaluator.OperandFailurePropagates | evaluator/evaluator.go:40-56 | an error or panic of a prefix operand or of an infix right operand is the result as it is; otherwise the operator is applied to the operand values, in the environment the operands left |
| Evaluator.ReturnWrapsValue | evaluator/evaluator.go:64-69 | `return` wraps its value in a `Return` marker, or passes an error or panic of the value on; without a value it wraps nil |
| Evaluator.UnhandledNodesYieldNil | evaluator/evaluator.go:75 | function literals, calls, assignments and `while` statements evaluate to nil and leave the environment unchanged |
| Evaluator.BlockAppend | evaluator/evaluator.go:78-88 | a block stops at its first `Return` marker, error or panic; otherwise it runs on from there |
| Evaluator.ProgramIsUnwrappedBlock | evaluator/evaluator.go:119-136 | a program evaluates as a block whose final `Return` marker is unwrapped |
| Evaluator.ExprKeepsErrorFree | evaluator/evaluator.go:27-32 | an environment with no error bindings keeps none while an expression is evaluated |
| Evaluator.StmtKeepsErrorFree | evaluator/evaluator.go:27-32 | `let` never binds an error, so no statement introduces an error binding |
| Evaluator.BlockKeepsErrorFree | evaluator/evaluator.go:78-88 | no statement list introduces an error binding |
| Evaluator.ProgramKeepsErrorFree | evaluator/evaluator.go:119-136 | no program introduces an error binding |
| Evaluator.IfExpressionRule | evaluator/evaluator.go:90-104 | an error or panic in the condition is the result; a truthy condition runs the consequence (a panic when it is missing), a falsy one the alternative, and with no alternative the result is null; the branch runs in the environment the condition left |
| Evaluator.LetThenLookup | evaluator/evaluator.go:27-32 | after `let x = e;` the expression `x` evaluates to what `e` evaluated to |
| Evaluator.EvalIdentifier | evaluator/evaluator.go:232-238 | a bound name's value, or `identifier not found: NAME` |
| Evaluator.EvalExpression | evaluator/evaluator.go:15-76 | outcome and new environment are `ExprResult` of the old environment |
| Evaluator.EvalIfExpression | evaluator/evaluator.go:90-104 | outcome and new environment are `ExprResult` of the `if` in the old environment |
| Evaluator.EvalStatement | evaluator/evaluator.go:15-76 | outcome and new environment are `StmtResult` of the old environment |
| Evaluator.EvalOptionalExpression | evaluator/evaluator.go:15-76 | a nil expression yields nil and changes nothing; otherwise outcome and new environment are `ExprResult` of the old environment |
| Evaluator.EvalBlockStatement | evaluator/evaluator.go:78-88 | the early-exit loop computes `BlockResult` |
| Evaluator.EvalProgram | evaluator/evaluator.go:119-136 | the early-exit loop computes `ProgramResult` |
| Parser.Advance | parser/parser.go:67-70 | the peek token becomes the current token, the errors are unchanged, and the lexer cursor moves forward |
| Parser.AdvanceProgress | parser/parser.go:67-70 | advancing never increases the progress measure, strictly decreases it unless the parser is stuck, and a stuck parser stays stuck with its errors unchanged |
| Parser.SkipToSemicolon | parser/parser.go:106-108 | the skip loop ends on `;` or reports a hang from the stuck state, and records no error |
| Parser.ParsedLet | parser/parser.go:96-111 | a `let` statement is built exactly when the peek token is an identifier, named by its literal, with no value and no error; otherwise a nil statement and exactly one error, with both tokens unchanged |
| Parser.ParsedReturn | parser/parser.go:113-120 | a `return` statement without a value, no error, and stops on `;` unless it hangs |
| Parser.ParsedExpression | parser/parser.go:148-174 | no expression exactly when the current token has no prefix rule; identifiers are named by their literal; an integer literal always yields a node, with one error when it does not parse |
| Parser.ParsedExpressionStatement | parser/parser.go:139-146 | the statement carries the current token and holds exactly the expression `parseExpression` returns; a `;` is consumed only when it is the peek token |
| Parser.ParsedStatement | parser/parser.go:85-94 | errors are only appended, a nil statement records an error, and every other statement's token literal is the current token's |
| Parser.ParsedProgram | parser/parser.go:72-83 | statements are only appended, the parse ends on EOF unless it hangs, and errors are only appended |
| Parser.ErrorFreeParseHasNoNilLet | parser/parser.go:96-100 | a parse that records no error contains no nil statement |
| Parser.ProgramStartsWithFirstToken | ast/ast.go:28-33 | the parsed program is empty exactly when the input starts at EOF or its first statement hangs; otherwise its token literal is the first token's, unless the first statement is a failed `let` (a nil statement, whose literal is not defined) |
| Parser.FirstStatementIsParsedStatement | parser/parser.go:72-83 | when the first statement finishes, it is the first statement of the program: the loop appends each statement in order |
| Parser.DecimalIntegerLiteral | parser/parser.go:164-174 | an integer literal without a leading zero is its decimal value, or the int64 maximum with `cannot parse "..." as integer value` |
| Parser.Parser.New | parser/parser.go:33-48 | no errors, and the current and peek tokens are the lexer's first two tokens |
| Parser.Parser.PeekError | parser/parser.go:54-57 | exactly one `expected next token to be T, got U instead` is appended |
| Parser.Parser.RegisterPrefixFn | parser/parser.go:59-61 | the rule table maps the token type to the rule, and nothing else changes |
| Parser.Parser.NextToken | parser/parser.go:67-70 | the state after is `Advance` of the state before |
| Parser.Parser.ExpectPeek | parser/parser.go:130-137 | on a match it advances and records no error; on a mismatch it appends one error and leaves the tokens unchanged |
| Parser.Parser.ParseProgram | parser/parser.go:72-83 | statements, final state and hang flag are `ParsedProgram` of the initial state |
| Parser.Parser.ParseStatement | parser/parser.go:85-94 | the result and new state are `ParsedStatement` of the old state |
| Parser.Parser.ParseLetStatement | parser/parser.go:96-111 | the result and new state are `ParsedLet` of the old state |
| Parser.Parser.ParseReturnStatement | parser/parser.go:113-120 | the result and new state are `ParsedReturn` of the old state |
| Parser.Parser.ParseExpressionStatement | parser/parser.go:139-146 | the result and new state are `ParsedExpressionStatement` of the old state |
| Parser.Parser.ParseExpression | parser/parser.go:148-155 | the result and new state are `ParsedExpression` of the old state |
| Parser.Parser.ParseIdentifier | parser/parser.go:157-162 | an identifier named by the current token's literal |
| Parser.Parser.ParseIntegerLiteral | parser/parser.go:164-174 | a node carrying the current token and its parsed value; an error is appended exactly when parsing fails |
| Parser.Parser.ParseIntegerError | parser/parser.go:176-179 | exactly one `cannot parse "..." as integer value` is appended |
| Pipeline.ParsedStatementDoesNotPanic | evaluator/evaluator.go:15-76 | every statement kind the parser builds, other than a nil `let`, evaluates without a run-time panic |
| Pipeline.ParsedStatementsDoNotPanic | evaluator/evaluator.go:119-136 | a program of such statements evaluates without a run-time panic |
| Pipeline.ParsedStatementsRunCleanly | evaluator/evaluator.go:119-136 | a program of such statements runs without a panic and introduces no error binding |
| Pipeline.ErrorFreeProgramDoesNotPanic | parser/parser.go:72-111 | a program that parses without errors evaluates without a run-time panic, in any environment, and an environment without error bindings has none afterwards |

## Left out

- main.go (the WebAssembly bindings and JSON output) and the editor sources are host glue, not interpreter logic.
- The Go `token` package is not part of this model. Its kind names in parser messages (`IDENT`, `INT`, `LET`, …) follow the usual Monkey convention.
- The `Environment` type is not part of this model. It is taken to be a map where `Set` overwrites and `Get` looks up.
- String literals, closures, function calls, `while` and assignment evaluation are not in the code, so they are not modelled. Function literals, calls, assignments and `while` statements evaluate to nil, as the Go `Eval` does for node kinds it does not handle (`Evaluator.UnhandledNodesYieldNil`).
- Infix parse rules and precedence are not in the parser. `registerInfixFn` is never called, so it is not modelled.
- Evaluator.Identical: Go's `==` on objects compares pointers. The model treats booleans and null as identical by value because they are shared, and treats all other objects as distinct. An object taken twice from the same environment binding would be identical in Go; that aliasing is not modelled.
- Lexer.LexingDropsOnlyWhitespace: literals are sequences of code points, one per input byte. Go's `string(l.char)` UTF-8-encodes a byte of 0x80 or more as two bytes, so for such input the ILLEGAL literal differs from the input byte; the equality holds byte for byte only for ASCII input.
- Lexer.IllegalByte: the ILLEGAL literal is the one code point of the byte; for a byte of 0x80 or more Go's literal is that code point's two-byte UTF-8 encoding.
- Strconv.ParseInt: only digit strings are modelled, which are all the parser ever passes. Signs, underscores and `0x`/`0b` prefixes never reach it.
- Parser.IntegerErrorMessage: `%q` is modelled as wrapping the literal in double quotes, which is exact for digit strings. It transcribes parser/parser.go:177 and has no contract of its own; `Parser.ParsedExpression` and `Parser.DecimalIntegerLiteral` state when it is recorded.
- Parser.PeekErrorMessage: transcribes the message of parser/parser.go:55 and has no contract of its own; `Parser.ParsedLet` and `Parser.Parser.PeekError` state when it is recorded.
- Parser.RegisteredPrefixFns: the two `registerPrefixFn` calls of parser/parser.go:41-42, a constant table; `Parser.ParsedExpression` states what it selects.
- Parser.Parser.CurrTokenIs, Parser.Parser.PeekTokenIs, Parser.Parser.Errors: the one-line accessors of parser/parser.go:122-128 and 50-52, read by the methods above; they have no contract of their own.
- Lexer.IsLetter, Lexer.IsNumber, Lexer.IsWhitespace: the byte classes of lexer/lexer.go:156-170 and 128-134, used inside the lexer contracts; they have no contract of their own.
- Lexer.CharAt: the rule of lexer/lexer.go:136-146 that the byte past the end is 0, used inside the lexer contracts; it has no contract of its own.
- Evaluator.IsError: `isError` of evaluator/evaluator.go:225-230, used inside the evaluator contracts; it has no contract of its own.
- Object.TypeName: the tag strings of object/object.go:7-13, a table; `Object.TypeNamesDistinct` states that they are distinct.
- Parser.Parser.ParseProgram: a `let` or `return` with no `;` after it makes the Go loop run forever. The model returns a `hangs` flag from the state where every further token is EOF.
- Prefix and infix operands, `if` conditions, function bodies and call targets are fields that are not optional in the AST. Their Go `String()` dereferences them, and the parser never builds such nodes with nil there. The evaluator's results on nil operand nodes are not modelled (in Go, `Eval` of nil is nil, so `!` of a nil operand is `false` and an `if` with a nil condition takes its consequence). Only the parser's nil results are `Option` fields: missing expressions, a missing `let` value, and missing `if` branches.
- Rendering of a node whose Go `String()` would dereference nil is excluded by the `...Renderable` preconditions.
- The concrete token sequences of the lexer's unit tests are not restated as lemmas. The general lemmas about whitespace, two-byte operators, maximal munch and illegal bytes cover what those tests check.
- The parser's three-`let` unit test is not restated as a lemma. `Parser.ParsedLet` and `Parser.ParsedProgram` state the general behaviour.

## Findings

| source | as written | input that shows it | evidently intended | confidence | as-written member | corrected member |
|---|---|---|---|---|---|---|
| ast/ast.go:133-144 | `WhileStatement.String` writes the keyword `if` | a `while` statement with condition `x` and a body renders exactly like the expression statement `if` `x` with that body | the keyword `while`, so the two render differently | not executed | Ast.WhileRendersAsIf | Ast.WhileRendersDistinctly |
