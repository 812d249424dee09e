/**
 * What the routines of parser.c do, proved about their reference functions:
 * the shape of each round of the loops, where statements() stops, and the
 * consequences of the two defects of the code as written.
 */
module Behaviour {
  import opened Tokens
  import opened Diagnostics
  import opened LexSpec
  import opened Recognizer

  /** n copies of the problem p. */
  function Repeat(p: Problem, n: nat): (ps: seq<Problem>)
    ensures |ps| == n && forall i :: 0 <= i < n ==> ps[i] == p
  {
    if n == 0 then [] else [p] + Repeat(p, n - 1)
  }

  /** Dropping one more token than the first one. */
  lemma DropNSucc(u: seq<Kind>, n: nat)
    ensures DropN(u, 1 + n) == DropN(Drop(u), n)
  {
  }

  // ---------------------------------------------------------------------------
  // statements()

  /** statements() returns only when the lookahead is EOI: the token after
      everything it consumed is EOI (a '$' or the end of the input). */
  lemma {:induction false} StatementsEnd(u: seq<Kind>, v: Variant, fuel: nat, f: nat)
    ensures var r := StatementsRun(u, v, fuel, f); r.done ==> Nth(u, r.used) == EOI
    decreases f
  {
    if Peek(u) != EOI && f > 0 {
      var st := StatementRun(u, v, fuel);
      var w := DropN(u, st.used);
      var rest := StatementsRun(w, v, fuel, f - 1);
      assert StatementsRun(u, v, fuel, f) == Then(st, rest);
      StatementsEnd(w, v, fuel, f - 1);
      ThenEnd(u, st, rest);
    }
  }

  /** A run followed by one that ends at EOI ends at EOI. */
  lemma ThenEnd(u: seq<Kind>, a: Run, b: Run)
    requires b.done ==> Nth(DropN(u, a.used), b.used) == EOI
    ensures Then(a, b).done ==> Nth(u, Then(a, b).used) == EOI
  {
    ThenNth(u, a, b);
  }

  /** Where a run followed by another stops: where the second stops on what the first left. */
  lemma ThenNth(u: seq<Kind>, a: Run, b: Run)
    ensures a.done && b.done ==> Nth(u, Then(a, b).used) == Nth(DropN(u, a.used), b.used)
  {
    if a.done && b.done {
      DropNAdd(u, a.used, b.used);
    }
  }

  /** Where a consumed token followed by a run stops. */
  lemma ConsumeNth(u: seq<Kind>, b: Run)
    ensures b.done ==> Nth(u, Then(Consume, b).used) == Nth(Drop(u), b.used)
  {
    ThenNth(u, Consume, b);
  }

  /** A round of statements() either consumes the ';' that follows its
      expression and reports nothing more, or consumes nothing more and
      reports the missing ';'. */
  lemma StatementShape(u: seq<Kind>, v: Variant, fuel: nat)
    ensures var st, e := StatementRun(u, v, fuel), ExpressionRun(u, v, fuel);
      st.done == e.done &&
      (st.done ==>
        (Nth(u, e.used) == Semi && st.used == e.used + 1 && st.problems == e.problems) ||
        (Nth(u, e.used) != Semi && st.used == e.used && st.problems == e.problems + [MissingSemicolon]))
  {
    var e := ExpressionRun(u, v, fuel);
    assert e.problems + [] == e.problems;
  }

  // ---------------------------------------------------------------------------
  // The loops of expression() and term()

  /** The '+' loop stops only at a token other than '+'. */
  lemma {:induction false} PlusLoopStops(u: seq<Kind>, v: Variant, fuel: nat)
    ensures var r := PlusLoop(u, v, fuel); r.done ==> Nth(u, r.used) != Plus
    decreases |u|
  {
    if Peek(u) == Plus {
      var t := TermRun(Drop(u), v, fuel);
      var w := DropN(Drop(u), t.used);
      var rest := PlusLoop(w, v, fuel);
      assert PlusLoop(u, v, fuel) == Then(Consume, Then(t, rest));
      PlusLoopStops(w, v, fuel);
      ThenNth(Drop(u), t, rest);
      ConsumeNth(u, Then(t, rest));
    }
  }

  /** The '*' loop stops only at a token other than '*'. */
  lemma {:induction false} TimesLoopStops(u: seq<Kind>, v: Variant, fuel: nat)
    ensures var r := TimesLoop(u, v, fuel); r.done ==> Nth(u, r.used) != Times
    decreases |u|
  {
    if Peek(u) == Times {
      var f := FactorRun(Drop(u), v, fuel);
      var w := DropN(Drop(u), f.used);
      var rest := TimesLoop(w, v, fuel);
      assert TimesLoop(u, v, fuel) == Then(Consume, Then(f, rest));
      TimesLoopStops(w, v, fuel);
      ThenNth(Drop(u), f, rest);
      ConsumeNth(u, Then(f, rest));
    }
  }

  // ---------------------------------------------------------------------------
  // factor()

  /** On NUM_OR_ID, factor() consumes exactly that token and reports nothing,
      in both variants. */
  lemma FactorOnOperand(u: seq<Kind>, v: Variant, fuel: nat)
    requires Peek(u) == NumOrId
    ensures FactorRun(u, v, fuel) == Run(true, 1, [])
  {
    OperandFirst(v);
    RecoverAtOnce(FirstKinds(v), u, fuel);
  }

  /** NUM_OR_ID is among the kinds the call sites compare with, in both variants. */
  lemma OperandFirst(v: Variant)
    ensures Code(NumOrId) in FirstKinds(v)
  {
    match v
    case AsWritten(stale) => CallSiteKinds(stale);
    case Corrected => CorrectedKinds();
  }

  /** A parenthesised factor consumes the '(' and its expression, and then
      consumes the ')' or reports the missing ')' without consuming. */
  lemma GroupShape(u: seq<Kind>, v: Variant, fuel: nat)
    requires Peek(u) == LParen
    ensures var g, e := GroupRun(u, v, fuel), ExpressionRun(Drop(u), v, fuel);
      g.done == e.done &&
      (g.done ==>
        (Nth(u, 1 + e.used) == RParen && g.used == e.used + 2 && g.problems == e.problems) ||
        (Nth(u, 1 + e.used) != RParen && g.used == e.used + 1 && g.problems == e.problems + [UnmatchedParen]))
  {
    var e := ExpressionRun(Drop(u), v, fuel);
    DropNSucc(u, e.used);
    assert e.problems + [] == e.problems;
    assert [] + e.problems == e.problems;
    assert [] + (e.problems + [UnmatchedParen]) == e.problems + [UnmatchedParen];
  }

  // ---------------------------------------------------------------------------
  // The code as written

  /**
   * term() as written consumes nothing but what legal_lookahead skips: when
   * legal_lookahead fails it stopped at a ';', where factor() consumes nothing
   * and the '*' loop does not run. So the '*' loop of term() never runs.
   */
  lemma TermSkipsOnly(u: seq<Kind>, stale: int, fuel: nat)
    ensures TermRun(u, AsWritten(stale), fuel) == LegalRun(Legal(u, AsWritten(stale), fuel))
  {
    var v := AsWritten(stale);
    var r := Legal(u, v, fuel);
    if r.done && !r.rval {
      RecoverSound(FirstKinds(v), u, fuel);
      var w := DropN(u, r.skipped);
      assert FactorRun(w, v, fuel) == Run(true, 0, []);
      assert TimesLoop(w, v, fuel) == Run(true, 0, []);
      ThenDone(Run(true, 0, []));
      ThenDone(LegalRun(r));
    }
  }

  /** As written, with a NUM_OR_ID lookahead term() and expression() return at
      once, consuming nothing and reporting nothing. */
  lemma ExpressionOnOperand(u: seq<Kind>, stale: int, fuel: nat)
    requires Peek(u) == NumOrId
    ensures TermRun(u, AsWritten(stale), fuel) == Run(true, 0, [])
    ensures ExpressionRun(u, AsWritten(stale), fuel) == Run(true, 0, [])
  {
    OperandFirst(AsWritten(stale));
    RecoverAtOnce(FirstKinds(AsWritten(stale)), u, fuel);
  }

  /**
   * As written, a statement that starts with a NUM_OR_ID never ends:
   * expression() consumes nothing, no ';' follows, and every round of
   * statements() reports the missing ';' at the same place. Within f rounds
   * statements() has not returned and has reported f missing ';'.
   */
  lemma {:induction false} StatementsStuck(u: seq<Kind>, stale: int, fuel: nat, f: nat)
    requires Peek(u) == NumOrId
    ensures StatementsRun(u, AsWritten(stale), fuel, f) == Run(false, 0, Repeat(MissingSemicolon, f))
    decreases f
  {
    if f > 0 {
      ExpressionOnOperand(u, stale, fuel);
      StatementsStuck(u, stale, fuel, f - 1);
    }
  }

  /**
   * As written, unless the uninitialised slot happens to hold L_PAREN, an
   * expression that starts with '(' begins with a Syntax Error: the '(' is not
   * among the kinds legal_lookahead compares with, so it is skipped.
   */
  lemma LParenRejected(u: seq<Kind>, stale: int, fuel: nat)
    requires Peek(u) == LParen && stale != Code(LParen) && fuel > 0
    ensures var r := ExpressionRun(u, AsWritten(stale), fuel); r.problems != [] && r.problems[0] == Syntax
    ensures Legal(u, AsWritten(stale), fuel).skipped > 0
  {
    CallSiteKinds(stale);
    RecoverSkip(FirstKinds(AsWritten(stale)), u, fuel);
  }
}
