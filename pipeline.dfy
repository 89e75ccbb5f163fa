/**
 * The lexer, parser and evaluator together: what the parser can build is
 * what the evaluator is run on.
 */
module Pipeline {

  import opened Wrappers
  import opened Token
  import opened Ast
  import Parser
  import opened Evaluator

  /** A statement the parser builds, other than a nil `let`, evaluates
      without a run-time panic. */
  lemma ParsedStatementDoesNotPanic(s: Statement, store: Store)
    requires Parser.ParserOutput(s) && !s.NilLetStatement?
    ensures StmtResult(s, store).0.Done?
  {
    match s
    case ExpressionStatement(_, e) =>
      if e.Some? {
        assert ExprResult(e.value, store).0.Done?;
      }
    case _ =>
  }

  lemma {:induction false} ParsedStatementsDoNotPanic(ss: seq<Statement>, store: Store, last: Option<Object.Object>)
    requires forall i :: 0 <= i < |ss| ==> Parser.ParserOutput(ss[i]) && !ss[i].NilLetStatement?
    ensures ProgramResult(ss, store, last).0.Done?
    decreases ss
  {
    if ss != [] {
      ParsedStatementDoesNotPanic(ss[0], store);
      var (o, s1) := StmtResult(ss[0], store);
      ParsedStatementsDoNotPanic(ss[1..], s1, o.value);
    }
  }

  /**
   * A program that parses without errors runs without a run-time panic, in
   * any environment: the only node the parser builds that the evaluator
   * cannot run is the nil statement of a failed `let`, and each of those
   * leaves an error behind. An environment without error bindings has
   * none after the run either.
   */
  lemma ErrorFreeProgramDoesNotPanic(input: seq<Byte>, st: Parser.ParserState, store: Store)
    requires Parser.WellFormedState(st)
    requires Parser.ParsedProgram(input, st, []).1.errors == st.errors
    ensures ProgramResult(Parser.ParsedProgram(input, st, []).0, store, None).0.Done?
    ensures ErrorFree(store) ==> ErrorFree(ProgramResult(Parser.ParsedProgram(input, st, []).0, store, None).1)
  {
    var r := Parser.ParsedProgram(input, st, []);
    Parser.ErrorFreeParseHasNoNilLet(input, st, []);
    ParsedStatementsRunCleanly(r.0, store);
  }

  /** The statements of a parse without nil `let`s run without a panic and
      introduce no error binding. */
  lemma ParsedStatementsRunCleanly(ss: seq<Statement>, store: Store)
    requires forall i :: 0 <= i < |ss| ==> Parser.ParserOutput(ss[i]) && !ss[i].NilLetStatement?
    ensures ProgramResult(ss, store, None).0.Done?
    ensures ErrorFree(store) ==> ErrorFree(ProgramResult(ss, store, None).1)
  {
    ParsedStatementsDoNotPanic(ss, store, None);
    if ErrorFree(store) {
      ProgramKeepsErrorFree(ss, store, None);
    }
  }
}
