/**
 * The tree-walking evaluator (evaluator/evaluator.go).
 *
 * `ExprResult`, `StmtResult`, `BlockResult` and `ProgramResult` say, as
 * functions, what evaluating a node does: the outcome and the environment
 * afterwards. The methods `Eval...` are the Go functions, which update the
 * environment in place and run early-exit loops over statement lists; each
 * is proved to agree with its function.
 *
 * An outcome is a Go object (possibly nil) or a run-time panic: a nil
 * dereference (`Type()` of a nil object, the body of a missing `if` branch,
 * a nil `*LetStatement`) or an integer division by zero.
 */
module Evaluator {

  import opened Wrappers
  import opened Int64
  import opened Ast
  import opened Object

  datatype Outcome = Done(value: Option<Object>) | Panic

  /** The bindings of an environment. */
  type Store = map<string, Option<Object>>

  /** The shared objects of evaluator/evaluator.go:9-13. Every boolean and
      every null the evaluator produces is one of them, so comparing such
      objects by identity is comparing them by value. */
  const TrueObj: Object := Boolean(true)
  const FalseObj: Object := Boolean(false)
  const NullObj: Object := Null

  // ---------------------------------------------------------------------------
  // Objects

  /** `isTruthy`: only null and false are falsy; nil, integers (0 among
      them) and markers are truthy. */
  function IsTruthy(o: Option<Object>): (r: bool)
    ensures r <==> o != Some(NullObj) && o != Some(FalseObj)
  {
    match o
    case None => true
    case Some(Null) => false
    case Some(Boolean(b)) => b
    case Some(_) => true
  }

  function NativeBoolToBooleanObj(b: bool): (r: Object)
    ensures r.Boolean? && r.boolValue == b
    ensures IsTruthy(Some(r)) == b
  {
    if b then TrueObj else FalseObj
  }

  predicate IsError(o: Option<Object>) {
    o.Some? && o.value.Error?
  }

  /** The results that end a block early: a `Return` marker or an error. */
  predicate IsMarker(o: Option<Object>) {
    o.Some? && (o.value.Return? || o.value.Error?)
  }

  /** An outcome that the enclosing expression or statement passes on
      unchanged: a panic, or an error. */
  predicate Aborts(r: Outcome) {
    r.Panic? || IsError(r.value)
  }

  // ---------------------------------------------------------------------------
  // Operators

  /** `!x` is the negation of `x`'s truthiness. */
  function EvalBang(right: Option<Object>): (r: Object)
    ensures r == NativeBoolToBooleanObj(!IsTruthy(right))
  {
    match right
    case Some(Boolean(true)) => FalseObj
    case Some(Boolean(false)) => TrueObj
    case Some(Null) => TrueObj
    case _ => FalseObj
  }

  /** Unary minus: negates an integer (int64 wrap-around), an error for any
      other object, a panic on nil. */
  function EvalMinus(right: Option<Object>): (r: Outcome)
    ensures right.Some? && right.value.Integer? ==>
      r.Done? && r.value.Some? && r.value.value.Integer? &&
      (right.value.intValue as int + r.value.value.intValue as int) % Modulus == 0
    ensures right.Some? && !right.value.Integer? ==>
      r == Done(Some(Error("unknown operator: -" + TypeName(Type(right.value)))))
    ensures right.None? ==> r.Panic?
  {
    match right
    case None => Panic
    case Some(Integer(v)) => Done(Some(Integer(Neg(v))))
    case Some(o) => Done(Some(Error("unknown operator: -" + TypeName(Type(o)))))
  }

  /** `!` and `-` as above; any other operator is an `unknown operator`
      error, or a panic when the operand is nil. */
  function EvalPrefix(op: string, right: Option<Object>): (o: Outcome)
    ensures op == "!" ==> o == Done(Some(NativeBoolToBooleanObj(!IsTruthy(right))))
    ensures op == "-" ==> o == EvalMinus(right)
    ensures op != "!" && op != "-" ==> (o.Panic? <==> right.None?)
    ensures op != "!" && op != "-" && right.Some? ==>
      o == Done(Some(Error("unknown operator: " + op + " " + TypeName(Type(right.value)))))
  {
    if op == "!" then Done(Some(EvalBang(right)))
    else if op == "-" then EvalMinus(right)
    else if right.None? then Panic
    else Done(Some(Error("unknown operator: " + op + " " + TypeName(Type(right.value)))))
  }

  /** The eight operators on two integers; any other operator yields null.
      Division truncates toward zero and panics on a zero divisor. */
  function EvalIntegerInfix(op: string, l: int64, r: int64): (o: Outcome)
    ensures o.Panic? <==> op == "/" && r == 0
    ensures op in {"+", "-", "*", "/"} && o.Done? ==> o.value.Some? && o.value.value.Integer?
    ensures op in {"<", ">", "==", "!="} ==> o.Done? && o.value.Some? && o.value.value.Boolean?
    ensures op !in {"+", "-", "*", "/", "<", ">", "==", "!="} ==> o == Done(Some(NullObj))
  {
    if op == "+" then Done(Some(Integer(Add(l, r))))
    else if op == "-" then Done(Some(Integer(Sub(l, r))))
    else if op == "*" then Done(Some(Integer(Mul(l, r))))
    else if op == "/" then (if r == 0 then Panic else Done(Some(Integer(Div(l, r)))))
    else if op == "<" then Done(Some(NativeBoolToBooleanObj(l < r)))
    else if op == ">" then Done(Some(NativeBoolToBooleanObj(l > r)))
    else if op == "==" then Done(Some(NativeBoolToBooleanObj(l == r)))
    else if op == "!=" then Done(Some(NativeBoolToBooleanObj(l != r)))
    else Done(Some(NullObj))
  }

  /** Go's `left == right` on two objects that are not both integers: the
      same object. Booleans and null are shared, so for them this is
      equality of value; integers, markers and errors are allocated afresh
      and are taken to be distinct objects. */
  function Identical(l: Object, r: Option<Object>): (same: bool)
    ensures same ==> r == Some(l)
    ensures l.Boolean? || l.Null? ==> (same <==> r == Some(l))
  {
    r.Some? && (l.Boolean? || l.Null?) && l == r.value
  }

  /** Two integers go to the integer operators; otherwise `==` and `!=`
      compare objects and every other operator is an error. A nil operand
      panics wherever Go asks it for its type. */
  function EvalInfix(op: string, left: Option<Object>, right: Option<Object>): (o: Outcome)
    ensures left.None? ==> o.Panic?
    ensures left.Some? && right.Some? && left.value.Integer? && right.value.Integer? ==>
      o == EvalIntegerInfix(op, left.value.intValue, right.value.intValue)
    ensures left.Some? && right.Some? && !(left.value.Integer? && right.value.Integer?) ==>
      && o.Done? && o.value.Some?
      && (op == "==" || op == "!=" ==> o.value.value.Boolean? && o.value.value.boolValue == ((op == "==") == Identical(left.value, right)))
      && (op != "==" && op != "!=" ==>
            o.value.value == Error("unknown operator: " + TypeName(Type(left.value)) + " " + op + " " + TypeName(Type(right.value))))
    ensures left.Some? && right.None? ==> (o.Panic? <==> left.value.Integer? || (op != "==" && op != "!="))
  {
    if left.None? then Panic
    else if left.value.Integer? && right.None? then Panic
    else if left.value.Integer? && right.value.Integer? then
      EvalIntegerInfix(op, left.value.intValue, right.value.intValue)
    else if op == "==" then Done(Some(NativeBoolToBooleanObj(Identical(left.value, right))))
    else if op == "!=" then Done(Some(NativeBoolToBooleanObj(!Identical(left.value, right))))
    else if right.None? then Panic
    else Done(Some(Error("unknown operator: " + TypeName(Type(left.value)) + " " + op + " " + TypeName(Type(right.value)))))
  }

  /** A bound name yields its binding; an unbound one is an error. */
  function LookupIdentifier(name: string, store: Store): (o: Outcome)
    ensures o.Done?
    ensures name in store ==> o.value == store[name]
    ensures name !in store ==> o.value == Some(Error("identifier not found: " + name))
  {
    if name in store then Done(store[name])
    else Done(Some(Error("identifier not found: " + name)))
  }

  // ---------------------------------------------------------------------------
  // Evaluation, as functions

  /** Evaluating an expression never removes a binding, and a leaf does
      not touch the environment. */
  function ExprResult(e: Expression, store: Store): (r: (Outcome, Store))
    ensures store.Keys <= r.1.Keys
    ensures e.IdentifierExpr? || e.IntegerLiteral? || e.BooleanLiteral? ==> r.1 == store
    decreases e
  {
    match e
    case IdentifierExpr(id) => (LookupIdentifier(id.value, store), store)
    case IntegerLiteral(_, v) => (Done(Some(Integer(v))), store)
    case BooleanLiteral(_, b) => (Done(Some(NativeBoolToBooleanObj(b))), store)
    case PrefixExpression(_, op, r) =>
      var (ro, s1) := ExprResult(r, store);
      if Aborts(ro) then (ro, s1) else (EvalPrefix(op, ro.value), s1)
    case InfixExpression(_, l, op, r) =>
      var (lo, s1) := ExprResult(l, store);
      if Aborts(lo) then (lo, s1)
      else
        var (ro, s2) := ExprResult(r, s1);
        if Aborts(ro) then (ro, s2) else (EvalInfix(op, lo.value, ro.value), s2)
    case IfExpression(_, c, cons, alt) =>
      var (co, s1) := ExprResult(c, store);
      if Aborts(co) then (co, s1)
      else if IsTruthy(co.value) then
        (if cons.Some? then BlockResult(cons.value.statements, s1, None) else (Panic, s1))
      else if alt.Some? then BlockResult(alt.value.statements, s1, None)
      else (Done(Some(NullObj)), s1)
    case FunctionLiteral(_, _, _) => (Done(None), store)
    case CallExpression(_, _, _) => (Done(None), store)
  }

  /** Evaluating a nil expression yields nil and changes nothing. */
  function OptExprResult(e: Option<Expression>, store: Store): (r: (Outcome, Store))
    ensures store.Keys <= r.1.Keys
    ensures e.None? ==> r == (Done(None), store)
    decreases e
  {
    if e.Some? then ExprResult(e.value, store) else (Done(None), store)
  }

  /** Evaluating a statement never removes a binding. A `let` whose value
      does not abort binds its name to that value in the environment the
      value's evaluation left, and yields nil; one whose value aborts binds
      nothing and passes the error or panic on. */
  function StmtResult(s: Statement, store: Store): (r: (Outcome, Store))
    ensures store.Keys <= r.1.Keys
    ensures s.LetStatement? && !Aborts(r.0) ==> r.0 == Done(None) && s.name.value in r.1
    ensures s.LetStatement? ==>
      var (v, s1) := OptExprResult(s.value, store);
      && (Aborts(v) ==> r == (v, s1))
      && (!Aborts(v) ==> r == (Done(None), s1[s.name.value := v.value]))
    decreases s
  {
    match s
    case ExpressionStatement(_, e) => OptExprResult(e, store)
    case LetStatement(_, name, v) =>
      var (o, s1) := OptExprResult(v, store);
      if Aborts(o) then (o, s1) else (Done(None), s1[name.value := o.value])
    case NilLetStatement => (Panic, store)
    case ReturnStatement(_, v) =>
      var (o, s1) := OptExprResult(v, store);
      if Aborts(o) then (o, s1) else (Done(Some(Return(o.value))), s1)
    case Block(b) => BlockResult(b.statements, store, None)
    case AssignStatement(_, _, _) => (Done(None), store)
    case WhileStatement(_, _, _) => (Done(None), store)
  }

  /** The statements of a block, run in order from `store` with `last` the
      result so far: the first marker (or panic) ends the block, otherwise
      the result is the last statement's. */
  function BlockResult(ss: seq<Statement>, store: Store, last: Option<Object>): (r: (Outcome, Store))
    ensures store.Keys <= r.1.Keys
    decreases ss
  {
    if ss == [] then (Done(last), store)
    else
      var (o, s1) := StmtResult(ss[0], store);
      if o.Panic? || IsMarker(o.value) then (o, s1)
      else BlockResult(ss[1..], s1, o.value)
  }

  /** The statements of a program: as a block, except that a `Return`
      marker is unwrapped. */
  function ProgramResult(ss: seq<Statement>, store: Store, last: Option<Object>): (r: (Outcome, Store))
    ensures store.Keys <= r.1.Keys
  {
    if ss == [] then (Done(last), store)
    else
      var (o, s1) := StmtResult(ss[0], store);
      if o.Panic? then (o, s1)
      else if o.value.Some? && o.value.value.Return? then (Done(o.value.value.inner), s1)
      else if IsError(o.value) then (o, s1)
      else ProgramResult(ss[1..], s1, o.value)
  }

  /** What the program level makes of a block's outcome: a `Return`
      marker gives way to the value it carries. */
  function Unwrap(r: (Outcome, Store)): (u: (Outcome, Store))
    ensures u.1 == r.1
    ensures u.0.Panic? <==> r.0.Panic?
    ensures !(r.0.Done? && r.0.value.Some? && r.0.value.value.Return?) ==> u == r
  {
    if r.0.Done? && r.0.value.Some? && r.0.value.value.Return? then (Done(r.0.value.value.inner), r.1) else r
  }

  // ---------------------------------------------------------------------------
  // Properties

  /** `!` agrees with truthiness and `!!x` is the truthiness of `x`. */
  lemma BangIsNegation(o: Option<Object>)
    ensures IsTruthy(Some(EvalBang(o))) == !IsTruthy(o)
    ensures EvalBang(Some(EvalBang(o))) == NativeBoolToBooleanObj(IsTruthy(o))
  {
  }

  /** Unary minus undoes itself on integers, including the minimum, which
      wraps to itself. */
  lemma MinusInvolutive(v: int64)
    ensures EvalMinus(EvalMinus(Some(Integer(v))).value) == Done(Some(Integer(v)))
  {
  }

  /** `==` and `!=` disagree on every pair of operands for which either of
      them yields a value, integers or not. */
  lemma EqualityComplement(left: Option<Object>, right: Option<Object>)
    ensures EvalInfix("==", left, right).Panic? <==> EvalInfix("!=", left, right).Panic?
    ensures EvalInfix("==", left, right).Done? ==>
      && EvalInfix("==", left, right).value.Some?
      && EvalInfix("!=", left, right).value.Some?
      && EvalInfix("==", left, right).value.value.Boolean?
      && EvalInfix("!=", left, right).value.value ==
           NativeBoolToBooleanObj(!EvalInfix("==", left, right).value.value.boolValue)
  {
  }

  /** On integers, `<` and `>` are each other's mirror image, `+` and `*`
      commute, and a quotient truncates toward zero with a remainder smaller
      than the divisor (save the wrapping quotient Min / -1). */
  lemma IntegerInfixLaws(a: int64, b: int64)
    ensures EvalIntegerInfix("<", a, b) == EvalIntegerInfix(">", b, a)
    ensures EvalIntegerInfix("+", a, b) == EvalIntegerInfix("+", b, a)
    ensures EvalIntegerInfix("*", a, b) == EvalIntegerInfix("*", b, a)
    ensures b == 0 <==> EvalIntegerInfix("/", a, b).Panic?
    ensures b != 0 && (a != Min || b != -1) ==>
      var q := EvalIntegerInfix("/", a, b).value.value.intValue;
      Abs(a - q * b) < Abs(b) && (a - q * b == 0 || (a - q * b < 0 <==> a < 0))
  {
  }

  /** Infix evaluates its left operand first: when the left operand fails
      (an error or a panic) the right operand is never evaluated, so the
      outcome and the environment do not depend on it. */
  lemma LeftFailureShortCircuits(tok: Token.Token, l: Expression, op: string, r1: Expression, r2: Expression, store: Store)
    requires Aborts(ExprResult(l, store).0)
    ensures ExprResult(InfixExpression(tok, l, op, r1), store) == ExprResult(l, store)
    ensures ExprResult(InfixExpression(tok, l, op, r1), store) == ExprResult(InfixExpression(tok, l, op, r2), store)
  {
  }

  /** A failure of a prefix operand, or of an infix right operand, is the
      result as it is; when both infix operands succeed, the operator is
      applied to their values in the environment the right operand left. */
  lemma {:induction false} OperandFailurePropagates(tok: Token.Token, l: Expression, op: string, r: Expression, store: Store)
    ensures var (ro, s1) := ExprResult(r, store);
      Aborts(ro) ==> ExprResult(PrefixExpression(tok, op, r), store) == (ro, s1)
    ensures var (ro, s1) := ExprResult(r, store);
      !Aborts(ro) ==> ExprResult(PrefixExpression(tok, op, r), store) == (EvalPrefix(op, ro.value), s1)
    ensures var (lo, s1) := ExprResult(l, store);
      var (ro, s2) := ExprResult(r, s1);
      && (!Aborts(lo) && Aborts(ro) ==> ExprResult(InfixExpression(tok, l, op, r), store) == (ro, s2))
      && (!Aborts(lo) && !Aborts(ro) ==> ExprResult(InfixExpression(tok, l, op, r), store) == (EvalInfix(op, lo.value, ro.value), s2))
  {
  }

  /** `return` wraps its value in a `Return` marker, or passes an error or
      panic of the value on; a `return` without a value wraps nil. */
  lemma {:induction false} ReturnWrapsValue(tok: Token.Token, v: Option<Expression>, store: Store)
    ensures var (o, s1) := OptExprResult(v, store);
      var r := StmtResult(ReturnStatement(tok, v), store);
      && (Aborts(o) ==> r == (o, s1))
      && (!Aborts(o) ==> r == (Done(Some(Return(o.value))), s1))
      && (v.None? ==> r == (Done(Some(Return(None))), store))
  {
  }

  /** Node kinds `Eval` has no case for yield nil and change nothing:
      function literals, calls, assignments and `while` statements. */
  lemma {:induction false} UnhandledNodesYieldNil(e: Expression, s: Statement, store: Store)
    ensures e.FunctionLiteral? || e.CallExpression? ==> ExprResult(e, store) == (Done(None), store)
    ensures s.AssignStatement? || s.WhileStatement? ==> StmtResult(s, store) == (Done(None), store)
  {
  }

  /** A block stops at its first `Return` marker, error or panic: whatever
      statements follow are never evaluated. Otherwise the rest of the
      block runs from where the first part left off. */
  lemma {:induction false} BlockAppend(a: seq<Statement>, b: seq<Statement>, store: Store, last: Option<Object>)
    requires a != []
    ensures var (o, s1) := BlockResult(a, store, last);
      BlockResult(a + b, store, last) ==
        if o.Panic? || IsMarker(o.value) then (o, s1) else BlockResult(b, s1, o.value)
    decreases a
  {
    assert (a + b)[0] == a[0];
    assert (a + b)[1..] == a[1..] + b;
    var (o, s1) := StmtResult(a[0], store);
    if !(o.Panic? || IsMarker(o.value)) && a[1..] != [] {
      BlockAppend(a[1..], b, s1, o.value);
    }
  }

  /** A program is a block whose final `Return` marker is unwrapped. */
  lemma {:induction false} ProgramIsUnwrappedBlock(ss: seq<Statement>, store: Store, last: Option<Object>)
    requires !IsMarker(last)
    ensures ProgramResult(ss, store, last) == Unwrap(BlockResult(ss, store, last))
    decreases ss
  {
    if ss != [] {
      var (o, s1) := StmtResult(ss[0], store);
      if !(o.Panic? || IsMarker(o.value)) {
        ProgramIsUnwrappedBlock(ss[1..], s1, o.value);
      }
    }
  }

  /**
   * `evalIfExpression`: an error or panic in the condition is the result;
   * a truthy condition runs the consequence (a missing one is a nil
   * dereference), a falsy one the alternative, and with no alternative the
   * result is null. The branch runs in the environment the condition left.
   */
  lemma {:induction false} IfExpressionRule(tok: Token.Token, c: Expression, cons: Option<BlockStatement>,
                                            alt: Option<BlockStatement>, store: Store)
    ensures var (co, s1) := ExprResult(c, store);
      var r := ExprResult(IfExpression(tok, c, cons, alt), store);
      && (Aborts(co) ==> r == (co, s1))
      && (!Aborts(co) && IsTruthy(co.value) ==>
            r == if cons.Some? then BlockResult(cons.value.statements, s1, None) else (Panic, s1))
      && (!Aborts(co) && !IsTruthy(co.value) && alt.Some? ==> r == BlockResult(alt.value.statements, s1, None))
      && (!Aborts(co) && !IsTruthy(co.value) && alt.None? ==> r == (Done(Some(NullObj)), s1))
  {
  }

  /** `let x = e; x` evaluates to what `e` evaluates to: the binding holds
      the value, and looking the name up returns it. */
  lemma LetThenLookup(tok: Token.Token, name: Identifier, e: Expression, store: Store)
    requires !Aborts(ExprResult(e, store).0)
    ensures var block := [LetStatement(tok, name, Some(e)), ExpressionStatement(name.token, Some(IdentifierExpr(name)))];
      BlockResult(block, store, None).0 == ExprResult(e, store).0
  {
    var block := [LetStatement(tok, name, Some(e)), ExpressionStatement(name.token, Some(IdentifierExpr(name)))];
    var (v, s1) := ExprResult(e, store);
    var s2 := s1[name.value := v.value];
    assert StmtResult(block[0], store) == (Done(None), s2);
    assert block[1..] == [block[1]];
    assert ExprResult(IdentifierExpr(name), s2) == (Done(v.value), s2);
    assert StmtResult(block[1], s2) == (Done(v.value), s2);
    assert BlockResult(block[1..], s2, None) == BlockResult([], s2, v.value);
  }

  /** No binding of the environment is an error object. */
  predicate ErrorFree(store: Store) {
    forall name :: name in store ==> !IsError(store[name])
  }

  /**
   * `let` binds only values that are not errors (an error propagates
   * instead), so an environment without error bindings keeps none,
   * whatever is evaluated in it.
   */
  lemma {:induction false} ExprKeepsErrorFree(e: Expression, store: Store)
    requires ErrorFree(store)
    ensures ErrorFree(ExprResult(e, store).1)
    decreases e
  {
    match e
    case PrefixExpression(_, _, r) => ExprKeepsErrorFree(r, store);
    case InfixExpression(_, l, _, r) =>
      ExprKeepsErrorFree(l, store);
      var (lo, s1) := ExprResult(l, store);
      ExprKeepsErrorFree(r, s1);
    case IfExpression(_, c, cons, alt) =>
      ExprKeepsErrorFree(c, store);
      var (co, s1) := ExprResult(c, store);
      if cons.Some? {
        BlockKeepsErrorFree(cons.value.statements, s1, None);
      }
      if alt.Some? {
        BlockKeepsErrorFree(alt.value.statements, s1, None);
      }
    case _ =>
  }

  lemma {:induction false} StmtKeepsErrorFree(s: Statement, store: Store)
    requires ErrorFree(store)
    ensures ErrorFree(StmtResult(s, store).1)
    decreases s
  {
    match s
    case ExpressionStatement(_, e) =>
      if e.Some? {
        ExprKeepsErrorFree(e.value, store);
      }
    case LetStatement(_, name, v) =>
      if v.Some? {
        ExprKeepsErrorFree(v.value, store);
      }
    case ReturnStatement(_, v) =>
      if v.Some? {
        ExprKeepsErrorFree(v.value, store);
      }
    case Block(b) => BlockKeepsErrorFree(b.statements, store, None);
    case _ =>
  }

  /** Neither does a whole program. */
  lemma {:induction false} ProgramKeepsErrorFree(ss: seq<Statement>, store: Store, last: Option<Object>)
    requires ErrorFree(store)
    ensures ErrorFree(ProgramResult(ss, store, last).1)
    decreases ss
  {
    if ss != [] {
      StmtKeepsErrorFree(ss[0], store);
      var (o, s1) := StmtResult(ss[0], store);
      if !(o.Panic? || IsMarker(o.value)) {
        ProgramKeepsErrorFree(ss[1..], s1, o.value);
      }
    }
  }

  lemma {:induction false} BlockKeepsErrorFree(ss: seq<Statement>, store: Store, last: Option<Object>)
    requires ErrorFree(store)
    ensures ErrorFree(BlockResult(ss, store, last).1)
    decreases ss
  {
    if ss != [] {
      StmtKeepsErrorFree(ss[0], store);
      var (o, s1) := StmtResult(ss[0], store);
      if !(o.Panic? || IsMarker(o.value)) {
        BlockKeepsErrorFree(ss[1..], s1, o.value);
      }
    }
  }

  // ---------------------------------------------------------------------------
  // The evaluator

  method EvalIdentifier(node: Identifier, env: Environment) returns (r: Outcome)
    ensures r == LookupIdentifier(node.value, env.store)
  {
    var val, ok := env.Get(node.value);
    if !ok {
      return Done(Some(Error("identifier not found: " + node.value)));
    }
    return Done(val);
  }

  method EvalExpression(e: Expression, env: Environment) returns (r: Outcome)
    modifies env
    ensures (r, env.store) == ExprResult(e, old(env.store))
    decreases e, 1
  {
    match e
    case IdentifierExpr(id) =>
      r := EvalIdentifier(id, env);
    case IntegerLiteral(_, v) =>
      r := Done(Some(Integer(v)));
    case BooleanLiteral(_, b) =>
      r := Done(Some(if b then TrueObj else FalseObj));
    case PrefixExpression(_, op, right) =>
      var rightValue := EvalExpression(right, env);
      if Aborts(rightValue) {
        return rightValue;
      }
      r := EvalPrefix(op, rightValue.value);
    case InfixExpression(_, left, op, right) =>
      var leftValue := EvalExpression(left, env);
      if Aborts(leftValue) {
        return leftValue;
      }
      var rightValue := EvalExpression(right, env);
      if Aborts(rightValue) {
        return rightValue;
      }
      r := EvalInfix(op, leftValue.value, rightValue.value);
    case IfExpression(_, _, _, _) =>
      r := EvalIfExpression(e, env);
    case FunctionLiteral(_, _, _) =>
      r := Done(None);
    case CallExpression(_, _, _) =>
      r := Done(None);
  }

  method EvalIfExpression(ie: Expression, env: Environment) returns (r: Outcome)
    requires ie.IfExpression?
    modifies env
    ensures (r, env.store) == ExprResult(ie, old(env.store))
    decreases ie, 0
  {
    var condition := EvalExpression(ie.condition, env);
    if Aborts(condition) {
      return condition;
    }
    if IsTruthy(condition.value) {
      if ie.consequence.None? {
        return Panic;
      }
      r := EvalBlockStatement(ie.consequence.value, env);
    } else if ie.alternative.Some? {
      r := EvalBlockStatement(ie.alternative.value, env);
    } else {
      r := Done(Some(NullObj));
    }
  }

  method EvalStatement(s: Statement, env: Environment) returns (r: Outcome)
    modifies env
    ensures (r, env.store) == StmtResult(s, old(env.store))
    decreases s, 1
  {
    match s
    case ExpressionStatement(_, e) =>
      r := EvalOptionalExpression(e, env);
    case LetStatement(_, name, v) =>
      var val := EvalOptionalExpression(v, env);
      if Aborts(val) {
        return val;
      }
      var _ := env.Set(name.value, val.value);
      r := Done(None);
    case NilLetStatement =>
      r := Panic;
    case ReturnStatement(_, v) =>
      var val := EvalOptionalExpression(v, env);
      if Aborts(val) {
        return val;
      }
      r := Done(Some(Return(val.value)));
    case Block(b) =>
      r := EvalBlockStatement(b, env);
    case AssignStatement(_, _, _) =>
      r := Done(None);
    case WhileStatement(_, _, _) =>
      r := Done(None);
  }

  /** `Eval` of a possibly nil expression: nil matches no node kind. */
  method EvalOptionalExpression(e: Option<Expression>, env: Environment) returns (r: Outcome)
    modifies env
    ensures (r, env.store) == OptExprResult(e, old(env.store))
    decreases e, 2
  {
    if e.None? {
      return Done(None);
    }
    r := EvalExpression(e.value, env);
  }

  method EvalBlockStatement(block: BlockStatement, env: Environment) returns (r: Outcome)
    modifies env
    ensures (r, env.store) == BlockResult(block.statements, old(env.store), None)
    decreases block, 0
  {
    var result: Option<Object> := None;
    var i := 0;
    while i < |block.statements|
      invariant 0 <= i <= |block.statements|
      invariant BlockResult(block.statements[i..], env.store, result) == BlockResult(block.statements, old(env.store), None)
    {
      assert block.statements[i..][1..] == block.statements[i + 1..];
      var o := EvalStatement(block.statements[i], env);
      if o.Panic? {
        return Panic;
      }
      result := o.value;
      if IsMarker(result) {
        return o;
      }
      i := i + 1;
    }
    r := Done(result);
  }

  method EvalProgram(program: Program, env: Environment) returns (r: Outcome)
    modifies env
    ensures (r, env.store) == ProgramResult(program.statements, old(env.store), None)
  {
    var result: Option<Object> := None;
    var i := 0;
    while i < |program.statements|
      invariant 0 <= i <= |program.statements|
      invariant ProgramResult(program.statements[i..], env.store, result) == ProgramResult(program.statements, old(env.store), None)
    {
      assert program.statements[i..][1..] == program.statements[i + 1..];
      var o := EvalStatement(program.statements[i], env);
      if o.Panic? {
        return Panic;
      }
      result := o.value;
      if result.Some? && result.value.Return? {
        return Done(result.value.inner);
      }
      if IsError(result) {
        return o;
      }
      i := i + 1;
    }
    r := Done(result);
  }
}
