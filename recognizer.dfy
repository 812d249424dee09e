/**
 * What the routines of parser.c do to the token stream, as pure functions: for
 * a stream u (followed by EOI forever) each gives a Run, saying whether the
 * routine returns within the fuel given, how many tokens it consumes and which
 * problems it reports. The recursion mirrors the C code exactly, including its
 * two defects: the kind list legal_lookahead fills, and the guard of term.
 */
module Recognizer {
  import opened Tokens
  import opened Diagnostics
  import opened LexSpec

  /** legal_lookahead's array holds MAXFIRST kinds. */
  const MaxFirst := 16

  /**
   * The kinds legal_lookahead compares the lookahead with: lookaheads[0..p)
   * after the fill loop. first_arg goes to index 0, index 1 is never written
   * (it holds whatever the stack held, stale), and each further kind is written
   * one place beyond the new p, so that the last one is never compared.
   */
  function ScannedKinds(first: int, extras: seq<int>, stale: int): (ks: seq<int>)
  {
    [first] + (if extras == [] then [] else [stale] + extras[..|extras| - 1])
  }

  /** The kinds the C code was evidently meant to compare with: all of them. */
  function IntendedKinds(first: int, extras: seq<int>): seq<int>
  {
    [first] + extras
  }

  /**
   * Which legal_lookahead and term the routines run: the code as written, where
   * stale stands for what the uninitialised lookaheads[1] holds, or the code
   * corrected to compare every kind passed and to return from term when
   * legal_lookahead fails.
   */
  datatype Variant = AsWritten(stale: int) | Corrected

  /** The kinds legal_lookahead compares the lookahead with, in each variant. */
  function Filled(v: Variant, first: int, extras: seq<int>): seq<int>
  {
    match v
    case AsWritten(stale) => ScannedKinds(first, extras, stale)
    case Corrected => IntendedKinds(first, extras)
  }

  /** The kinds of legal_lookahead(NUM_OR_ID, L_PAREN, 0), as every call site passes them. */
  function FirstKinds(v: Variant): seq<int>
  {
    Filled(v, Code(NumOrId), [Code(LParen)])
  }

  /** Whether term returns when legal_lookahead returns 1: as written its guard
      is legal_lookahead(...) itself; corrected, it is the negation. */
  predicate ReturnsOnLegal(v: Variant)
  {
    v.AsWritten?
  }

  /** The scanned list keeps its length but puts the stale slot in place of
      the second kind, and drops the last kind. */
  lemma ScannedShifted(first: int, extras: seq<int>, stale: int)
    requires extras != []
    ensures var ks, want := ScannedKinds(first, extras, stale), IntendedKinds(first, extras);
      |ks| == |want| && ks[0] == want[0] && ks[1] == stale &&
      forall i :: 2 <= i < |ks| ==> ks[i] == want[i - 1]
  {
  }

  /** At every call site the compared kinds are NUM_OR_ID and the stale slot, so a
      '(' is accepted only when the stale slot happens to hold L_PAREN. */
  lemma CallSiteKinds(stale: int)
    ensures FirstKinds(AsWritten(stale)) == [Code(NumOrId), stale]
    ensures Code(LParen) in FirstKinds(AsWritten(stale)) <==> stale == Code(LParen)
    ensures Code(NumOrId) in FirstKinds(AsWritten(stale))
  {
    assert FirstKinds(AsWritten(stale)) == [6, stale];
  }

  /** Corrected, the call sites compare with NUM_OR_ID and L_PAREN. */
  lemma CorrectedKinds()
    ensures FirstKinds(Corrected) == [Code(NumOrId), Code(LParen)]
    ensures forall k :: Code(k) in FirstKinds(Corrected) <==> k == NumOrId || k == LParen
  {
    assert FirstKinds(Corrected) == [6, 4];
    forall k ensures Code(k) in FirstKinds(Corrected) <==> k == NumOrId || k == LParen {
      CodeInjective(k, NumOrId);
      CodeInjective(k, LParen);
    }
  }

  // ---------------------------------------------------------------------------
  // Panic-mode recovery

  /** The result of legal_lookahead: its return value, whether it returned within
      the fuel, and how many tokens it skipped. */
  datatype Recovery = Recovery(rval: bool, done: bool, skipped: nat)

  /**
   * The loop of legal_lookahead on stream u: stop at a ';' (returning 0) or at a
   * kind in kinds (returning 1), otherwise skip a token; fuel bounds the skips.
   */
  function Recover(kinds: seq<int>, u: seq<Kind>, fuel: nat): (r: Recovery)
    ensures r.done ==> r.skipped <= fuel
    decreases fuel
  {
    if Peek(u) == Semi then Recovery(false, true, 0)
    else if Code(Peek(u)) in kinds then Recovery(true, true, 0)
    else if fuel == 0 then Recovery(false, false, 0)
    else
      var r := Recover(kinds, Drop(u), fuel - 1);
      r.(skipped := r.skipped + 1)
  }

  /** The n-th token of a stream. */
  function Nth(u: seq<Kind>, n: nat): Kind
  {
    Peek(DropN(u, n))
  }

  /**
   * Recovery never consumes a ';': it returns 0 at a ';' or 1 at a kind in kinds
   * that is not ';', and every token it skipped was neither.
   */
  lemma {:induction false} RecoverSound(kinds: seq<int>, u: seq<Kind>, fuel: nat)
    ensures var r := Recover(kinds, u, fuel);
      (r.done && r.rval ==> Nth(u, r.skipped) != Semi && Code(Nth(u, r.skipped)) in kinds) &&
      (r.done && !r.rval ==> Nth(u, r.skipped) == Semi) &&
      (!r.done ==> !r.rval) &&
      forall j :: 0 <= j < r.skipped ==> Nth(u, j) != Semi && Code(Nth(u, j)) !in kinds
    decreases fuel
  {
    if Peek(u) != Semi && Code(Peek(u)) !in kinds && fuel > 0 {
      RecoverSound(kinds, Drop(u), fuel - 1);
      var r := Recover(kinds, Drop(u), fuel - 1);
      forall j | 0 <= j < r.skipped + 1
        ensures Nth(u, j) != Semi && Code(Nth(u, j)) !in kinds
      {
        if j > 0 {
          assert Nth(u, j) == Nth(Drop(u), j - 1);
        }
      }
    }
  }

  /** When the lookahead is a kind in kinds and not ';', recovery returns 1 at once. */
  lemma RecoverAtOnce(kinds: seq<int>, u: seq<Kind>, fuel: nat)
    requires Peek(u) != Semi && Code(Peek(u)) in kinds
    ensures Recover(kinds, u, fuel) == Recovery(true, true, 0)
  {
  }

  /** When no ';' and no kind in kinds lies ahead, and EOI is not among kinds,
      recovery never returns, whatever the fuel. */
  lemma {:induction false} RecoverDiverges(kinds: seq<int>, u: seq<Kind>, fuel: nat)
    requires forall k :: k in u ==> k != Semi && Code(k) !in kinds
    requires Code(EOI) !in kinds
    ensures !Recover(kinds, u, fuel).done
    decreases fuel
  {
    assert u != [] ==> u[0] in u;
    if fuel > 0 {
      assert forall k :: k in Drop(u) ==> k in u;
      RecoverDiverges(kinds, Drop(u), fuel - 1);
    }
  }

  /** The problems legal_lookahead reports: one Syntax Error if it skipped anything. */
  function RecoverProblems(r: Recovery): (ps: seq<Problem>)
    ensures |ps| <= 1
  {
    if r.skipped > 0 then [Syntax] else []
  }

  // ---------------------------------------------------------------------------
  // The grammar routines

  /** A routine's effect on the stream: whether it returns within the fuel, how
      many tokens it consumes, and the problems it reports, in order. */
  datatype Run = Run(done: bool, used: nat, problems: seq<Problem>)

  /** a, then b on what a leaves; a routine that does not return stops the sequence. */
  function Then(a: Run, b: Run): Run
  {
    if a.done then Run(b.done, a.used + b.used, a.problems + b.problems) else a
  }

  /** The part of a routine that is legal_lookahead(NUM_OR_ID, L_PAREN, 0). */
  function Legal(u: seq<Kind>, v: Variant, fuel: nat): Recovery
  {
    Recover(FirstKinds(v), u, fuel)
  }

  function LegalRun(r: Recovery): Run
  {
    Run(r.done, r.skipped, RecoverProblems(r))
  }

  /** A token consumed with advance(). */
  const Consume := Run(true, 1, [])

  /** expression(): term, then ('+' term)* while the lookahead is '+'. */
  function ExpressionRun(u: seq<Kind>, v: Variant, fuel: nat): Run
    decreases |u|, 4
  {
    var r := Legal(u, v, fuel);
    if !r.done || !r.rval then LegalRun(r)
    else
      var w := DropN(u, r.skipped);
      var t := TermRun(w, v, fuel);
      Then(LegalRun(r), Then(t, PlusLoop(DropN(w, t.used), v, fuel)))
  }

  function PlusLoop(u: seq<Kind>, v: Variant, fuel: nat): Run
    decreases |u|, 3
  {
    if Peek(u) != Plus then Run(true, 0, [])
    else
      var t := TermRun(Drop(u), v, fuel);
      Then(Consume, Then(t, PlusLoop(DropN(Drop(u), t.used), v, fuel)))
  }

  /** term(): as written it returns at once when legal_lookahead succeeds, and
      goes on to factor and the '*' loop only when it fails; corrected, the
      other way round. */
  function TermRun(u: seq<Kind>, v: Variant, fuel: nat): Run
    decreases |u|, 3
  {
    var r := Legal(u, v, fuel);
    if !r.done || r.rval == ReturnsOnLegal(v) then LegalRun(r)
    else
      var w := DropN(u, r.skipped);
      var f := FactorRun(w, v, fuel);
      Then(LegalRun(r), Then(f, TimesLoop(DropN(w, f.used), v, fuel)))
  }

  function TimesLoop(u: seq<Kind>, v: Variant, fuel: nat): Run
    decreases |u|, 2
  {
    if Peek(u) != Times then Run(true, 0, [])
    else
      var f := FactorRun(Drop(u), v, fuel);
      Then(Consume, Then(f, TimesLoop(DropN(Drop(u), f.used), v, fuel)))
  }

  /** factor(): legal_lookahead, then the operand. */
  function FactorRun(u: seq<Kind>, v: Variant, fuel: nat): Run
    decreases |u|, 2
  {
    var r := Legal(u, v, fuel);
    if !r.done || !r.rval then LegalRun(r)
    else Then(LegalRun(r), OperandRun(DropN(u, r.skipped), v, fuel))
  }

  /** The operand of factor(): NUM_OR_ID, or '(' expression ')' with a report of
      a missing ')', or a report that an operand is missing. */
  function OperandRun(u: seq<Kind>, v: Variant, fuel: nat): Run
    decreases |u|, 1
  {
    if Peek(u) == NumOrId then Consume
    else if Peek(u) == LParen then GroupRun(u, v, fuel)
    else Run(true, 0, [OperandExpected])
  }

  /** The three branches of factor()'s if-chain. */
  lemma OperandCases(u: seq<Kind>, v: Variant, fuel: nat)
    ensures Peek(u) == NumOrId ==> OperandRun(u, v, fuel) == Consume
    ensures Peek(u) == LParen ==> OperandRun(u, v, fuel) == GroupRun(u, v, fuel)
    ensures Peek(u) != NumOrId && Peek(u) != LParen ==> OperandRun(u, v, fuel) == Run(true, 0, [OperandExpected])
  {
  }

  /** A parenthesised factor: the '(', an expression, then its ')' or a report
      that the ')' is missing. */
  function GroupRun(u: seq<Kind>, v: Variant, fuel: nat): Run
    requires Peek(u) == LParen
    decreases |u|, 0
  {
    var e := ExpressionRun(Drop(u), v, fuel);
    Then(Consume, Then(e, CloseRun(DropN(Drop(u), e.used))))
  }

  /** The ')' that closes a parenthesised expression, or its report. */
  function CloseRun(w: seq<Kind>): Run
  {
    if Peek(w) == RParen then Consume else Run(true, 0, [UnmatchedParen])
  }

  /** statements(): until the lookahead is EOI, one statement after another;
      f bounds the number of statements. */
  function StatementsRun(u: seq<Kind>, v: Variant, fuel: nat, f: nat): Run
    decreases f
  {
    if Peek(u) == EOI then Run(true, 0, [])
    else if f == 0 then Run(false, 0, [])
    else
      var st := StatementRun(u, v, fuel);
      Then(st, StatementsRun(DropN(u, st.used), v, fuel, f - 1))
  }

  /** The body of the loop of statements(): an expression, and then a ';' or a
      report of the missing ';'. */
  function StatementRun(u: seq<Kind>, v: Variant, fuel: nat): Run
  {
    var e := ExpressionRun(u, v, fuel);
    Then(e, EndRun(DropN(u, e.used)))
  }

  /** The ';' that ends a statement, or the report that it is missing. */
  function EndRun(w: seq<Kind>): Run
  {
    if Peek(w) == Semi then Consume else Run(true, 0, [MissingSemicolon])
  }

  // ---------------------------------------------------------------------------
  // Composing runs

  /** Running acc on stream a0, with problems p0 reported before, leaves
      stream a and problems ps. */
  ghost predicate At(a0: seq<Kind>, p0: seq<Problem>, acc: Run, a: seq<Kind>, ps: seq<Problem>)
  {
    a == DropN(a0, acc.used) && ps == p0 + acc.problems
  }

  /** Nothing run yet. */
  lemma AtStart(a0: seq<Kind>, p0: seq<Problem>)
    ensures At(a0, p0, Run(true, 0, []), a0, p0)
  {
    assert p0 + [] == p0;
  }

  /** Running acc and then r is running Then(acc, r). */
  lemma AtThen(a0: seq<Kind>, p0: seq<Problem>, acc: Run, a: seq<Kind>, ps: seq<Problem>,
               r: Run, a': seq<Kind>, ps': seq<Problem>)
    requires acc.done && At(a0, p0, acc, a, ps) && At(a, ps, r, a', ps')
    ensures At(a0, p0, Then(acc, r), a', ps')
  {
    DropNAdd(a0, acc.used, r.used);
    assert p0 + acc.problems + r.problems == p0 + (acc.problems + r.problems);
  }

  /** advance() consumes one token and reports nothing. */
  lemma AtAdvance(a: seq<Kind>, ps: seq<Problem>)
    ensures At(a, ps, Consume, Drop(a), ps)
  {
    assert ps + [] == ps;
  }

  /** A message consumes nothing and reports its problem. */
  lemma AtReport(a: seq<Kind>, ps: seq<Problem>, p: Problem)
    ensures At(a, ps, Run(true, 0, [p]), a, ps + [p])
  {
  }

  /** A run that stops before returning consumes and reports what it did so far. */
  lemma AtStopped(a0: seq<Kind>, p0: seq<Problem>, acc: Run, a: seq<Kind>, ps: seq<Problem>)
    requires At(a0, p0, acc, a, ps)
    ensures At(a0, p0, acc.(done := false), a, ps)
  {
  }

  /** Running acc, then advance(), then r. */
  lemma AtConsumeThen(a0: seq<Kind>, p0: seq<Problem>, acc: Run, a: seq<Kind>, ps: seq<Problem>,
                      r: Run, a': seq<Kind>, ps': seq<Problem>)
    requires acc.done && At(a0, p0, acc, a, ps) && At(Drop(a), ps, r, a', ps')
    ensures At(a0, p0, Then(acc, Then(Consume, r)), a', ps')
  {
    AtAdvance(a, ps);
    AtThen(a, ps, Consume, Drop(a), ps, r, a', ps');
    AtThen(a0, p0, acc, a, ps, Then(Consume, r), a', ps');
  }

  /** The closing step of a parenthesised factor regrouped. */
  lemma ThenClose(e: Run, close: Run)
    ensures Then(Then(Consume, e), close) == Then(Consume, Then(e, close))
  {
    ThenAssoc(Consume, e, close);
  }

  lemma ThenAssoc(a: Run, b: Run, c: Run)
    ensures Then(Then(a, b), c) == Then(a, Then(b, c))
  {
    if a.done && b.done {
      assert a.problems + b.problems + c.problems == a.problems + (b.problems + c.problems);
    }
  }

  /** A run followed by nothing to do is the run itself. */
  lemma ThenDone(a: Run)
    ensures Then(a, Run(true, 0, [])) == a
  {
    assert a.problems + [] == a.problems;
  }

  /** A run that does not return is not continued. */
  lemma ThenStopped(a: Run, b: Run)
    requires !a.done
    ensures Then(a, b) == a
  {
  }

  /** Nothing run, then b, is b. */
  lemma DoneThen(b: Run)
    ensures Then(Run(true, 0, []), b) == b
  {
    assert [] + b.problems == b.problems;
  }

  /** A round of legal_lookahead's loop that skips the lookahead. */
  lemma RecoverSkip(kinds: seq<int>, u: seq<Kind>, fuel: nat)
    requires Peek(u) != Semi && Code(Peek(u)) !in kinds && fuel > 0
    ensures var r := Recover(kinds, Drop(u), fuel - 1);
      Recover(kinds, u, fuel) == r.(skipped := r.skipped + 1)
  {
  }

  /** One round of the '+' loop: consume the '+', then a term. */
  lemma PlusStep(acc: Run, u: seq<Kind>, v: Variant, fuel: nat)
    requires Peek(u) == Plus
    ensures var t := TermRun(Drop(u), v, fuel);
      Then(acc, PlusLoop(u, v, fuel)) ==
      Then(Then(acc, Then(Consume, t)), PlusLoop(DropN(Drop(u), t.used), v, fuel))
  {
    var t := TermRun(Drop(u), v, fuel);
    var rest := PlusLoop(DropN(Drop(u), t.used), v, fuel);
    ThenAssoc(Consume, t, rest);
    ThenAssoc(acc, Then(Consume, t), rest);
  }

  /** One round of the '*' loop: consume the '*', then a factor. */
  lemma TimesStep(acc: Run, u: seq<Kind>, v: Variant, fuel: nat)
    requires Peek(u) == Times
    ensures var f := FactorRun(Drop(u), v, fuel);
      Then(acc, TimesLoop(u, v, fuel)) ==
      Then(Then(acc, Then(Consume, f)), TimesLoop(DropN(Drop(u), f.used), v, fuel))
  {
    var f := FactorRun(Drop(u), v, fuel);
    var rest := TimesLoop(DropN(Drop(u), f.used), v, fuel);
    ThenAssoc(Consume, f, rest);
    ThenAssoc(acc, Then(Consume, f), rest);
  }

  /** A round of term's '*' loop keeps the loop's account of the whole loop. */
  lemma TimesRound(u0: seq<Kind>, p0: seq<Problem>, v: Variant, fuel: nat, whole: Run, acc: Run,
                   a: seq<Kind>, ps: seq<Problem>, a': seq<Kind>, ps': seq<Problem>)
    requires acc.done && At(u0, p0, acc, a, ps) && Peek(a) == Times
    requires whole == Then(acc, TimesLoop(a, v, fuel))
    requires At(Drop(a), ps, FactorRun(Drop(a), v, fuel), a', ps')
    ensures var acc' := Then(acc, Then(Consume, FactorRun(Drop(a), v, fuel)));
      At(u0, p0, acc', a', ps') && whole == Then(acc', TimesLoop(a', v, fuel)) && |a'| < |a|
  {
    TimesStep(acc, a, v, fuel);
    AtConsumeThen(u0, p0, acc, a, ps, FactorRun(Drop(a), v, fuel), a', ps');
  }

  /** A round of expression's '+' loop keeps the loop's account of the whole loop. */
  lemma PlusRound(u0: seq<Kind>, p0: seq<Problem>, v: Variant, fuel: nat, whole: Run, acc: Run,
                  a: seq<Kind>, ps: seq<Problem>, a': seq<Kind>, ps': seq<Problem>)
    requires acc.done && At(u0, p0, acc, a, ps) && Peek(a) == Plus
    requires whole == Then(acc, PlusLoop(a, v, fuel))
    requires At(Drop(a), ps, TermRun(Drop(a), v, fuel), a', ps')
    ensures var acc' := Then(acc, Then(Consume, TermRun(Drop(a), v, fuel)));
      At(u0, p0, acc', a', ps') && whole == Then(acc', PlusLoop(a', v, fuel)) && |a'| < |a|
  {
    PlusStep(acc, a, v, fuel);
    AtConsumeThen(u0, p0, acc, a, ps, TermRun(Drop(a), v, fuel), a', ps');
  }

  /** expression() composed from its legal_lookahead, its term and its '+' loop;
      a term that does not return ends it. */
  lemma ExpressionCompose(u: seq<Kind>, p: seq<Problem>, v: Variant, fuel: nat, a: seq<Kind>, ps: seq<Problem>,
                          b: seq<Kind>, q: seq<Problem>, c: seq<Kind>, qs: seq<Problem>)
    requires Legal(u, v, fuel).done && Legal(u, v, fuel).rval
    requires At(u, p, LegalRun(Legal(u, v, fuel)), a, ps)
    requires At(a, ps, TermRun(a, v, fuel), b, q)
    requires TermRun(a, v, fuel).done ==> At(b, q, PlusLoop(b, v, fuel), c, qs)
    requires !TermRun(a, v, fuel).done ==> c == b && qs == q
    ensures At(u, p, ExpressionRun(u, v, fuel), c, qs)
    ensures ExpressionRun(u, v, fuel).done == (TermRun(a, v, fuel).done && PlusLoop(b, v, fuel).done)
  {
    var l := LegalRun(Legal(u, v, fuel));
    var t := TermRun(a, v, fuel);
    AtThen(u, p, l, a, ps, t, b, q);
    if t.done {
      AtThen(u, p, Then(l, t), b, q, PlusLoop(b, v, fuel), c, qs);
      ThenAssoc(l, t, PlusLoop(b, v, fuel));
    }
  }

  /** term() composed from the legal_lookahead it goes on after, its factor and
      its '*' loop; a factor that does not return ends it. */
  lemma TermCompose(u: seq<Kind>, p: seq<Problem>, v: Variant, fuel: nat, a: seq<Kind>, ps: seq<Problem>,
                    b: seq<Kind>, q: seq<Problem>, c: seq<Kind>, qs: seq<Problem>)
    requires Legal(u, v, fuel).done && Legal(u, v, fuel).rval != ReturnsOnLegal(v)
    requires At(u, p, LegalRun(Legal(u, v, fuel)), a, ps)
    requires At(a, ps, FactorRun(a, v, fuel), b, q)
    requires FactorRun(a, v, fuel).done ==> At(b, q, TimesLoop(b, v, fuel), c, qs)
    requires !FactorRun(a, v, fuel).done ==> c == b && qs == q
    ensures At(u, p, TermRun(u, v, fuel), c, qs)
    ensures TermRun(u, v, fuel).done == (FactorRun(a, v, fuel).done && TimesLoop(b, v, fuel).done)
  {
    var l := LegalRun(Legal(u, v, fuel));
    var f := FactorRun(a, v, fuel);
    AtThen(u, p, l, a, ps, f, b, q);
    if f.done {
      AtThen(u, p, Then(l, f), b, q, TimesLoop(b, v, fuel), c, qs);
      ThenAssoc(l, f, TimesLoop(b, v, fuel));
    }
  }

  /** factor() composed from its legal_lookahead and its operand. */
  lemma FactorCompose(u: seq<Kind>, p: seq<Problem>, v: Variant, fuel: nat, a: seq<Kind>, ps: seq<Problem>,
                      c: seq<Kind>, qs: seq<Problem>)
    requires Legal(u, v, fuel).done && Legal(u, v, fuel).rval
    requires At(u, p, LegalRun(Legal(u, v, fuel)), a, ps)
    requires At(a, ps, OperandRun(a, v, fuel), c, qs)
    ensures At(u, p, FactorRun(u, v, fuel), c, qs)
    ensures FactorRun(u, v, fuel).done == OperandRun(a, v, fuel).done
  {
    AtThen(u, p, LegalRun(Legal(u, v, fuel)), a, ps, OperandRun(a, v, fuel), c, qs);
  }

  /** A run that returns, followed by the end of the fuel, stops. */
  lemma ThenHalt(a: Run)
    requires a.done
    ensures Then(a, Run(false, 0, [])) == a.(done := false)
  {
    assert a.problems + [] == a.problems;
  }

  /** A round of the loop of statements() keeps the loop's account of the whole
      loop: acc' is what has run after the round, and the round ends the loop
      when its statement does not return. */
  lemma StatementsRound(u0: seq<Kind>, p0: seq<Problem>, v: Variant, fuel: nat, whole: Run, acc: Run,
                        a: seq<Kind>, ps: seq<Problem>, f: nat, f': nat, a': seq<Kind>, ps': seq<Problem>)
    returns (acc': Run)
    requires acc.done && At(u0, p0, acc, a, ps) && Peek(a) != EOI && f == f' + 1
    requires whole == Then(acc, StatementsRun(a, v, fuel, f))
    requires At(a, ps, StatementRun(a, v, fuel), a', ps')
    ensures acc'.done == StatementRun(a, v, fuel).done && At(u0, p0, acc', a', ps')
    ensures acc'.done ==> whole == Then(acc', StatementsRun(a', v, fuel, f'))
    ensures !acc'.done ==> whole == acc'
  {
    var st := StatementRun(a, v, fuel);
    acc' := Then(acc, st);
    AtThen(u0, p0, acc, a, ps, st, a', ps');
    ThenAssoc(acc, st, StatementsRun(a', v, fuel, f'));
  }

  /** One statement composed from its expression and its end. */
  lemma StatementCompose(a: seq<Kind>, ps: seq<Problem>, v: Variant, fuel: nat,
                         b: seq<Kind>, q: seq<Problem>, c: seq<Kind>, qs: seq<Problem>)
    requires At(a, ps, ExpressionRun(a, v, fuel), b, q)
    requires ExpressionRun(a, v, fuel).done ==> At(b, q, EndRun(b), c, qs)
    requires !ExpressionRun(a, v, fuel).done ==> c == b && qs == q
    ensures At(a, ps, StatementRun(a, v, fuel), c, qs)
    ensures StatementRun(a, v, fuel).done == ExpressionRun(a, v, fuel).done
  {
    var e := ExpressionRun(a, v, fuel);
    if e.done {
      AtStart(a, ps);
      AtThen(a, ps, Run(true, 0, []), a, ps, e, b, q);
      DoneThen(e);
      AtThen(a, ps, e, b, q, EndRun(b), c, qs);
    }
  }
}
