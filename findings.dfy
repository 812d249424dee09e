/**
 * The two defects of parser.c on a concrete program, the one-line input "1;":
 * as written statements() never returns and reports a missing ';' on every
 * round; corrected, it consumes both tokens and reports nothing. And the
 * input "(1);", which as written begins with a Syntax Error unless the
 * uninitialised slot of the lookahead table happens to hold L_PAREN.
 */
module Findings {
  import opened Tokens
  import opened Diagnostics
  import opened LexSpec
  import opened Recognizer
  import opened Behaviour
  import opened Grammar

  /** The input "1;" is the tokens NUM_OR_ID and ';'. */
  lemma OneSemiTokens()
    ensures Tokenize("1;") == [NumOrId, Semi]
  {
  }

  /** As written, on "1;" statements() has not returned within any number of
      rounds, and has reported as many missing ';'. */
  lemma OneSemiAsWritten(stale: int, fuel: nat, count: nat)
    ensures StatementsRun(Tokenize("1;"), AsWritten(stale), fuel, count) ==
      Run(false, 0, Repeat(MissingSemicolon, count))
  {
    OneSemiTokens();
    StatementsStuck([NumOrId, Semi], stale, fuel, count);
  }

  /** Corrected, on "1;" statements() returns having consumed both tokens and
      reported nothing. */
  lemma OneSemiCorrected(fuel: nat, count: nat)
    requires count >= 1
    ensures StatementsRun(Tokenize("1;"), Corrected, fuel, count) == Run(true, 2, [])
  {
    var es := [Sum(Product(Atom))];
    OneSemiTokens();
    assert ProgramToks(es) == [NumOrId, Semi];
    ProgramAccepted(es, fuel, count);
  }

  /** The input "(1);" is the tokens '(', NUM_OR_ID, ')' and ';'. */
  lemma GroupSemiTokens()
    ensures Tokenize("(1);") == [LParen, NumOrId, RParen, Semi]
  {
  }

  /** The problems of a run begin with those of its first part. */
  lemma ThenProblems(a: Run, b: Run)
    ensures a.problems <= Then(a, b).problems
  {
  }

  /** As written, on "(1);" the first diagnostic is a Syntax Error. */
  lemma GroupSemiAsWritten(stale: int, fuel: nat, count: nat)
    requires stale != Code(LParen) && fuel > 0 && count >= 1
    ensures var r := StatementsRun(Tokenize("(1);"), AsWritten(stale), fuel, count);
      r.problems != [] && r.problems[0] == Syntax
  {
    var u := [LParen, NumOrId, RParen, Semi];
    var v := AsWritten(stale);
    GroupSemiTokens();
    LParenRejected(u, stale, fuel);
    var e := ExpressionRun(u, v, fuel);
    var st := StatementRun(u, v, fuel);
    ThenProblems(e, EndRun(DropN(u, e.used)));
    ThenProblems(st, StatementsRun(DropN(u, st.used), v, fuel, count - 1));
  }

  /** Corrected, "(1);" is accepted without a diagnostic. */
  lemma GroupSemiCorrected(fuel: nat, count: nat)
    requires count >= 1
    ensures StatementsRun(Tokenize("(1);"), Corrected, fuel, count) == Run(true, 4, [])
  {
    var es := [Sum(Product(Nested(Sum(Product(Atom)))))];
    GroupSemiTokens();
    assert ProgramToks(es) == [LParen, NumOrId, RParen, Semi];
    ProgramAccepted(es, fuel, count);
  }
}
