/**
 * The recursive-descent parser of parser.c over a lexer session: statements,
 * expression, term and factor, and the panic-mode recovery legal_lookahead.
 * Each routine is proved to do to the token stream and to the diagnostics
 * exactly what its reference function in Recognizer says.
 */
module Parser {
  import opened Tokens
  import opened Diagnostics
  import opened LexSpec
  import opened Recognizer
  import opened Lexer

  /**
   * The fill loop of legal_lookahead: extras are the variadic arguments before
   * the terminating 0. The returned kinds are lookaheads[0..p) when the loop
   * ends. The C array is not initialised; stale stands for what its slot 1 holds.
   */
  method FillLookaheads(first: int, extras: seq<int>, stale: int) returns (kinds: seq<int>)
    requires first != 0
    requires |extras| <= MaxFirst - 2
    requires forall i :: 0 <= i < |extras| ==> extras[i] != 0
    ensures kinds == ScannedKinds(first, extras, stale)
  {
    var lookaheads := new int[MaxFirst];
    lookaheads[1] := stale;
    var p := 0;
    lookaheads[p] := first;
    p := p + 1;
    var j := 0;
    while j < |extras| && p < MaxFirst
      invariant 0 <= j <= |extras| && p == j + 1
      invariant lookaheads[0] == first && lookaheads[1] == stale
      invariant forall i :: 2 <= i <= p ==> lookaheads[i] == extras[i - 2]
    {
      p := p + 1;
      lookaheads[p] := extras[j];
      j := j + 1;
    }
    kinds := lookaheads[..p];
  }

  /** The fill loop with the post-increment evidently intended: every kind is stored. */
  method FillLookaheadsFixed(first: int, extras: seq<int>) returns (kinds: seq<int>)
    requires first != 0
    requires |extras| <= MaxFirst - 1
    requires forall i :: 0 <= i < |extras| ==> extras[i] != 0
    ensures kinds == IntendedKinds(first, extras)
  {
    var lookaheads := new int[MaxFirst];
    var p := 0;
    lookaheads[p] := first;
    p := p + 1;
    var j := 0;
    while j < |extras| && p < MaxFirst
      invariant 0 <= j <= |extras| && p == j + 1
      invariant lookaheads[0] == first
      invariant forall i :: 1 <= i < p ==> lookaheads[i] == extras[i - 1]
    {
      lookaheads[p] := extras[j];
      p := p + 1;
      j := j + 1;
    }
    kinds := lookaheads[..p];
  }

  /** The for loop of legal_lookahead: match each stored kind in turn. The
      cell is filled, so no match reads a token. */
  method MatchAny(s: Session, kinds: seq<int>) returns (found: bool)
    requires s.Valid() && s.lookahead != -1
    modifies s
    ensures s.Valid() && s.Ahead() == old(s.Ahead())
    ensures s.lookahead == old(s.lookahead) && s.diags == old(s.diags)
    ensures found <==> s.lookahead in kinds
  {
    var i := 0;
    while i < |kinds|
      invariant 0 <= i <= |kinds|
      invariant s.Valid() && s.Ahead() == old(s.Ahead())
      invariant s.lookahead == old(s.lookahead) && s.diags == old(s.diags)
      invariant forall t :: 0 <= t < i ==> kinds[t] != s.lookahead
    {
      found := s.Match(kinds[i]);
      if found {
        return;
      }
      i := i + 1;
    }
    found := false;
  }

  /**
   * The recovery loop of legal_lookahead: until the lookahead is ';', return
   * at a kind in kinds, otherwise report one Syntax Error and skip the token.
   * fuel bounds the tokens skipped.
   */
  method SkipToLegal(s: Session, kinds: seq<int>, fuel: nat) returns (rval: bool, done: bool, ghost skipped: nat)
    requires s.Valid()
    modifies s
    ensures s.Valid()
    ensures Recovery(rval, done, skipped) == Recover(kinds, old(s.Ahead()), fuel)
    ensures At(old(s.Ahead()), old(Problems(s.diags)), LegalRun(Recovery(rval, done, skipped)), s.Ahead(), Problems(s.diags))
  {
    ghost var a0, p0 := s.Ahead(), Problems(s.diags);
    ghost var a, ps := a0, p0;
    var errorPrinted := false;
    var f: nat := fuel;
    skipped := 0;
    SkippingStart(kinds, a0, p0, fuel);
    while true
      invariant s.Valid() && s.Ahead() == a && Problems(s.diags) == ps
      invariant errorPrinted <==> skipped > 0
      invariant Skipping(kinds, a0, p0, fuel, a, ps, f, skipped)
      decreases f
    {
      var semi := s.Match(Code(Semi));
      CodeInjective(Peek(a), Semi);
      if semi {
        rval, done := false, true;
        SkippingStop(kinds, a0, p0, fuel, a, ps, f, skipped, rval, done);
        return;
      }
      var found := MatchAny(s, kinds);
      if found || f == 0 {
        rval, done := found, found;
        SkippingStop(kinds, a0, p0, fuel, a, ps, f, skipped, rval, done);
        return;
      }
      ghost var a1, ps1, f1, k1 := a, ps, f, skipped;
      SkipToken(s, errorPrinted);
      a, ps := Drop(a), if skipped > 0 then ps else ps + [Syntax];
      errorPrinted := true;
      skipped, f := skipped + 1, f - 1;
      SkippingStep(kinds, a0, p0, fuel, a1, ps1, f1, k1, a, ps, f, skipped);
    }
  }

  /** The end of a round of recovery: one Syntax Error for the whole recovery,
      then advance past the token. */
  method SkipToken(s: Session, errorPrinted: bool)
    requires s.Valid() && s.lookahead != -1
    modifies s
    ensures s.Valid() && s.Ahead() == Drop(old(s.Ahead()))
    ensures Problems(s.diags) == if errorPrinted then old(Problems(s.diags)) else old(Problems(s.diags)) + [Syntax]
  {
    if !errorPrinted {
      s.Report(SyntaxError(s.yylineno));
    }
    s.Advance();
  }

  /** The state of legal_lookahead's loop on stream a0 with problems p0 before:
      skipped tokens skipped, f fuel left, stream a and problems ps now. */
  ghost predicate Skipping(kinds: seq<int>, a0: seq<Kind>, p0: seq<Problem>, fuel: nat,
                           a: seq<Kind>, ps: seq<Problem>, f: nat, skipped: nat)
  {
    f + skipped == fuel &&
    (var r := Recover(kinds, a, f); Recover(kinds, a0, fuel) == r.(skipped := r.skipped + skipped)) &&
    At(a0, p0, Run(true, skipped, if skipped > 0 then [Syntax] else []), a, ps)
  }

  lemma SkippingStart(kinds: seq<int>, a0: seq<Kind>, p0: seq<Problem>, fuel: nat)
    ensures Skipping(kinds, a0, p0, fuel, a0, p0, fuel, 0)
  {
    AtStart(a0, p0);
  }

  /** Skipping the lookahead, which is neither ';' nor a stored kind, reports a
      Syntax Error the first time only. */
  lemma SkippingStep(kinds: seq<int>, a0: seq<Kind>, p0: seq<Problem>, fuel: nat,
                     a: seq<Kind>, ps: seq<Problem>, f: nat, skipped: nat,
                     a': seq<Kind>, ps': seq<Problem>, f': nat, skipped': nat)
    requires Skipping(kinds, a0, p0, fuel, a, ps, f, skipped)
    requires Peek(a) != Semi && Code(Peek(a)) !in kinds && f > 0
    requires a' == Drop(a) && ps' == (if skipped > 0 then ps else ps + [Syntax])
    requires f' == f - 1 && skipped' == skipped + 1
    ensures Skipping(kinds, a0, p0, fuel, a', ps', f', skipped')
  {
    RecoverSkip(kinds, a, f);
    DropNAdd(a0, skipped, 1);
    if skipped == 0 {
      assert p0 + [] + [Syntax] == p0 + [Syntax];
    }
  }

  /** The loop ends at a ';', at a stored kind, or when the fuel is spent. */
  lemma SkippingStop(kinds: seq<int>, a0: seq<Kind>, p0: seq<Problem>, fuel: nat,
                     a: seq<Kind>, ps: seq<Problem>, f: nat, skipped: nat, rval: bool, done: bool)
    requires Skipping(kinds, a0, p0, fuel, a, ps, f, skipped)
    requires Peek(a) == Semi ==> !rval && done
    requires Peek(a) != Semi ==> (rval <==> Code(Peek(a)) in kinds) && (done <==> rval) && (!rval ==> f == 0)
    ensures Recovery(rval, done, skipped) == Recover(kinds, a0, fuel)
    ensures At(a0, p0, LegalRun(Recovery(rval, done, skipped)), a, ps)
  {
  }

  /**
   * legal_lookahead(first, extras..., 0): with first == 0, whether the
   * lookahead is EOI; otherwise recovery to a ';' or to one of the kinds the
   * fill loop stored.
   */
  method LegalLookahead(s: Session, first: int, extras: seq<int>, v: Variant, fuel: nat)
    returns (rval: bool, done: bool, ghost skipped: nat)
    requires s.Valid()
    requires |extras| <= MaxFirst - 2
    requires forall i :: 0 <= i < |extras| ==> extras[i] != 0
    modifies s
    ensures s.Valid()
    ensures first == 0 ==> done && skipped == 0 && (rval <==> Peek(old(s.Ahead())) == EOI)
    ensures first != 0 ==> Recovery(rval, done, skipped) == Recover(Filled(v, first, extras), old(s.Ahead()), fuel)
    ensures At(old(s.Ahead()), old(Problems(s.diags)), LegalRun(Recovery(rval, done, skipped)), s.Ahead(), Problems(s.diags))
  {
    if first == 0 {
      AtStart(s.Ahead(), Problems(s.diags));
      rval := s.Match(Code(EOI));
      DecodeEncode(Peek(s.Ahead()));
      done, skipped := true, 0;
    } else {
      var kinds;
      if v.AsWritten? {
        kinds := FillLookaheads(first, extras, v.stale);
      } else {
        kinds := FillLookaheadsFixed(first, extras);
      }
      rval, done, skipped := SkipToLegal(s, kinds, fuel);
    }
  }

  // ---------------------------------------------------------------------------
  // The grammar routines

  /** expression(): legal_lookahead, a term, and then the '+' loop. */
  method Expression(s: Session, v: Variant, fuel: nat) returns (done: bool)
    requires s.Valid()
    modifies s
    ensures s.Valid()
    ensures done == ExpressionRun(old(s.Ahead()), v, fuel).done
    ensures At(old(s.Ahead()), old(Problems(s.diags)), ExpressionRun(old(s.Ahead()), v, fuel), s.Ahead(), Problems(s.diags))
    decreases |s.Ahead()|, 6
  {
    ghost var a0, p0 := s.Ahead(), Problems(s.diags);
    var ok;
    ghost var n;
    ok, done, n := LegalLookahead(s, Code(NumOrId), [Code(LParen)], v, fuel);
    if !done || !ok {
      assert ExpressionRun(a0, v, fuel) == LegalRun(Recovery(ok, done, n));
      return;
    }
    ghost var a, ps := s.Ahead(), Problems(s.diags);
    done := Term(s, v, fuel);
    ghost var b, q := s.Ahead(), Problems(s.diags);
    if done {
      done := PlusTerms(s, v, fuel);
    }
    ExpressionCompose(a0, p0, v, fuel, a, ps, b, q, s.Ahead(), Problems(s.diags));
  }

  /** The while loop of expression(): while the lookahead is '+', advance and
      parse a term. */
  method PlusTerms(s: Session, v: Variant, fuel: nat) returns (done: bool)
    requires s.Valid()
    modifies s
    ensures s.Valid()
    ensures done == PlusLoop(old(s.Ahead()), v, fuel).done
    ensures At(old(s.Ahead()), old(Problems(s.diags)), PlusLoop(old(s.Ahead()), v, fuel), s.Ahead(), Problems(s.diags))
    decreases |s.Ahead()|, 5
  {
    ghost var a0, p0 := s.Ahead(), Problems(s.diags);
    ghost var whole := PlusLoop(a0, v, fuel);
    ghost var acc := Run(true, 0, []);
    ghost var a, ps := a0, p0;
    AtStart(a0, p0);
    DoneThen(whole);
    done := true;
    while true
      invariant s.Valid() && s.Ahead() == a && Problems(s.diags) == ps && |a| <= |a0|
      invariant done && acc.done && At(a0, p0, acc, a, ps)
      invariant whole == Then(acc, PlusLoop(a, v, fuel))
      decreases |a|
    {
      var plus := s.Match(Code(Plus));
      if !plus {
        ThenDone(acc);
        assert whole == acc;
        return;
      }
      CodeInjective(Peek(a), Plus);
      s.Advance();
      done := Term(s, v, fuel);
      PlusRound(a0, p0, v, fuel, whole, acc, a, ps, s.Ahead(), Problems(s.diags));
      acc, a, ps := Then(acc, Then(Consume, TermRun(Drop(a), v, fuel))), s.Ahead(), Problems(s.diags);
      if !done {
        ThenStopped(acc, PlusLoop(a, v, fuel));
        assert whole == acc;
        return;
      }
    }
  }

  /** term(): as written it returns at once when legal_lookahead succeeds, and
      goes on to a factor and the '*' loop only when it fails; corrected, the
      other way round. */
  method Term(s: Session, v: Variant, fuel: nat) returns (done: bool)
    requires s.Valid()
    modifies s
    ensures s.Valid()
    ensures done == TermRun(old(s.Ahead()), v, fuel).done
    ensures At(old(s.Ahead()), old(Problems(s.diags)), TermRun(old(s.Ahead()), v, fuel), s.Ahead(), Problems(s.diags))
    decreases |s.Ahead()|, 4
  {
    ghost var a0, p0 := s.Ahead(), Problems(s.diags);
    var ok;
    ghost var n;
    ok, done, n := LegalLookahead(s, Code(NumOrId), [Code(LParen)], v, fuel);
    if !done || ok == ReturnsOnLegal(v) {
      assert TermRun(a0, v, fuel) == LegalRun(Recovery(ok, done, n));
      return;
    }
    ghost var a, ps := s.Ahead(), Problems(s.diags);
    done := Factor(s, v, fuel);
    ghost var b, q := s.Ahead(), Problems(s.diags);
    if done {
      done := TimesFactors(s, v, fuel);
    }
    TermCompose(a0, p0, v, fuel, a, ps, b, q, s.Ahead(), Problems(s.diags));
  }

  /** The while loop of term(): while the lookahead is '*', advance and parse a
      factor. */
  method TimesFactors(s: Session, v: Variant, fuel: nat) returns (done: bool)
    requires s.Valid()
    modifies s
    ensures s.Valid()
    ensures done == TimesLoop(old(s.Ahead()), v, fuel).done
    ensures At(old(s.Ahead()), old(Problems(s.diags)), TimesLoop(old(s.Ahead()), v, fuel), s.Ahead(), Problems(s.diags))
    decreases |s.Ahead()|, 3
  {
    ghost var a0, p0 := s.Ahead(), Problems(s.diags);
    ghost var whole := TimesLoop(a0, v, fuel);
    ghost var acc := Run(true, 0, []);
    ghost var a, ps := a0, p0;
    AtStart(a0, p0);
    DoneThen(whole);
    done := true;
    while true
      invariant s.Valid() && s.Ahead() == a && Problems(s.diags) == ps && |a| <= |a0|
      invariant done && acc.done && At(a0, p0, acc, a, ps)
      invariant whole == Then(acc, TimesLoop(a, v, fuel))
      decreases |a|
    {
      var times := s.Match(Code(Times));
      if !times {
        ThenDone(acc);
        assert whole == acc;
        return;
      }
      CodeInjective(Peek(a), Times);
      s.Advance();
      done := Factor(s, v, fuel);
      TimesRound(a0, p0, v, fuel, whole, acc, a, ps, s.Ahead(), Problems(s.diags));
      acc, a, ps := Then(acc, Then(Consume, FactorRun(Drop(a), v, fuel))), s.Ahead(), Problems(s.diags);
      if !done {
        ThenStopped(acc, TimesLoop(a, v, fuel));
        assert whole == acc;
        return;
      }
    }
  }

  /** factor(): legal_lookahead, and then the operand. */
  method Factor(s: Session, v: Variant, fuel: nat) returns (done: bool)
    requires s.Valid()
    modifies s
    ensures s.Valid()
    ensures done == FactorRun(old(s.Ahead()), v, fuel).done
    ensures At(old(s.Ahead()), old(Problems(s.diags)), FactorRun(old(s.Ahead()), v, fuel), s.Ahead(), Problems(s.diags))
    decreases |s.Ahead()|, 2
  {
    ghost var a0, p0 := s.Ahead(), Problems(s.diags);
    var ok;
    ghost var n;
    ok, done, n := LegalLookahead(s, Code(NumOrId), [Code(LParen)], v, fuel);
    if !done || !ok {
      assert FactorRun(a0, v, fuel) == LegalRun(Recovery(ok, done, n));
      return;
    }
    ghost var a, ps := s.Ahead(), Problems(s.diags);
    done := Operand(s, v, fuel);
    FactorCompose(a0, p0, v, fuel, a, ps, s.Ahead(), Problems(s.diags));
  }

  /** The if-chain of factor(): a NUM_OR_ID, a parenthesised expression, or a
      report that an operand is missing. */
  method Operand(s: Session, v: Variant, fuel: nat) returns (done: bool)
    requires s.Valid()
    modifies s
    ensures s.Valid()
    ensures done == OperandRun(old(s.Ahead()), v, fuel).done
    ensures At(old(s.Ahead()), old(Problems(s.diags)), OperandRun(old(s.Ahead()), v, fuel), s.Ahead(), Problems(s.diags))
    decreases |s.Ahead()|, 1
  {
    ghost var a, ps := s.Ahead(), Problems(s.diags);
    OperandCases(a, v, fuel);
    var num := s.Match(Code(NumOrId));
    CodeInjective(Peek(a), NumOrId);
    if num {
      s.Advance();
      AtAdvance(a, ps);
      return true;
    }
    var paren := s.Match(Code(LParen));
    CodeInjective(Peek(a), LParen);
    if paren {
      done := Group(s, v, fuel);
    } else {
      s.Report(NumOrIdExpected(s.yylineno));
      AtReport(a, ps, OperandExpected);
      done := true;
    }
  }

  /** The '(' branch of factor(): advance, expression(), and then advance past
      the ')' or report that it is missing. */
  method Group(s: Session, v: Variant, fuel: nat) returns (done: bool)
    requires s.Valid() && s.lookahead != -1 && Peek(s.Ahead()) == LParen
    modifies s
    ensures s.Valid()
    ensures done == GroupRun(old(s.Ahead()), v, fuel).done
    ensures At(old(s.Ahead()), old(Problems(s.diags)), GroupRun(old(s.Ahead()), v, fuel), s.Ahead(), Problems(s.diags))
    decreases |s.Ahead()|, 0
  {
    ghost var a, ps := s.Ahead(), Problems(s.diags);
    s.Advance();
    done := Expression(s, v, fuel);
    ParenThen(a, ps, v, fuel, s.Ahead(), Problems(s.diags));
    if done {
      ghost var b, q := s.Ahead(), Problems(s.diags);
      Close(s);
      ParenClose(a, ps, v, fuel, b, q, s.Ahead(), Problems(s.diags));
    }
  }

  /** The end of a parenthesised factor: the ')' is consumed, or its absence reported. */
  method Close(s: Session)
    requires s.Valid()
    modifies s
    ensures s.Valid()
    ensures At(old(s.Ahead()), old(Problems(s.diags)), CloseRun(old(s.Ahead())), s.Ahead(), Problems(s.diags))
  {
    ghost var b, q := s.Ahead(), Problems(s.diags);
    var close := s.Match(Code(RParen));
    CodeInjective(Peek(b), RParen);
    if close {
      s.Advance();
      AtAdvance(b, q);
    } else {
      s.Report(MismatchedParen(s.yylineno));
      AtReport(b, q, UnmatchedParen);
    }
  }

  /** statements(): until the lookahead is EOI, one statement after another.
      count bounds the rounds of the loop. */
  method Statements(s: Session, v: Variant, fuel: nat, count: nat) returns (done: bool)
    requires s.Valid()
    modifies s
    ensures s.Valid()
    ensures done == StatementsRun(old(s.Ahead()), v, fuel, count).done
    ensures At(old(s.Ahead()), old(Problems(s.diags)), StatementsRun(old(s.Ahead()), v, fuel, count), s.Ahead(), Problems(s.diags))
  {
    ghost var a0, p0 := s.Ahead(), Problems(s.diags);
    ghost var whole := StatementsRun(a0, v, fuel, count);
    ghost var acc := Run(true, 0, []);
    ghost var a, ps := a0, p0;
    AtStart(a0, p0);
    DoneThen(whole);
    var f: nat := count;
    var eoi := s.Match(Code(EOI));
    CodeInjective(Peek(a), EOI);
    while !eoi
      invariant s.Valid() && s.Ahead() == a && Problems(s.diags) == ps
      invariant acc.done && At(a0, p0, acc, a, ps)
      invariant whole == Then(acc, StatementsRun(a, v, fuel, f))
      invariant eoi <==> Peek(a) == EOI
      decreases f
    {
      if f == 0 {
        ThenHalt(acc);
        AtStopped(a0, p0, acc, a, ps);
        return false;
      }
      done := Statement(s, v, fuel);
      ghost var f0 := f;
      f := f - 1;
      acc := StatementsRound(a0, p0, v, fuel, whole, acc, a, ps, f0, f, s.Ahead(), Problems(s.diags));
      a, ps := s.Ahead(), Problems(s.diags);
      if !done {
        return;
      }
      eoi := s.Match(Code(EOI));
      CodeInjective(Peek(a), EOI);
    }
    ThenDone(acc);
    done := true;
  }

  /** The body of the loop of statements(): an expression, and then advance()
      past its ';' or report that the ';' is missing. */
  method Statement(s: Session, v: Variant, fuel: nat) returns (done: bool)
    requires s.Valid()
    modifies s
    ensures s.Valid()
    ensures done == StatementRun(old(s.Ahead()), v, fuel).done
    ensures At(old(s.Ahead()), old(Problems(s.diags)), StatementRun(old(s.Ahead()), v, fuel), s.Ahead(), Problems(s.diags))
  {
    ghost var a, ps := s.Ahead(), Problems(s.diags);
    done := Expression(s, v, fuel);
    ghost var b, q := s.Ahead(), Problems(s.diags);
    if done {
      var semi := s.Match(Code(Semi));
      CodeInjective(Peek(b), Semi);
      if semi {
        s.Advance();
        AtAdvance(b, q);
      } else {
        s.Report(MissingSemi(s.yylineno));
        AtReport(b, q, MissingSemicolon);
      }
    }
    StatementCompose(a, ps, v, fuel, b, q, s.Ahead(), Problems(s.diags));
  }

  /** parse(): statements() on a session reading text. */
  method Parse(text: string, v: Variant, fuel: nat, count: nat) returns (done: bool, diags: seq<Diagnostic>)
    requires forall i :: 0 <= i < |text| ==> text[i] != '\0'
    ensures var r := StatementsRun(Tokenize(text), v, fuel, count);
      done == r.done && Problems(diags) == r.problems
  {
    var s := new Session(text);
    ghost var u := s.Ahead();
    assert u == Tokenize(text);
    assert Problems(s.diags) == [];
    done := Statements(s, v, fuel, count);
    diags := s.diags;
    AtFresh(u, StatementsRun(u, v, fuel, count), s.Ahead(), Problems(diags));
  }

  /** What a run reports on a fresh log is the whole log. */
  lemma AtFresh(u: seq<Kind>, r: Run, a: seq<Kind>, ps: seq<Problem>)
    requires At(u, [], r, a, ps)
    ensures ps == r.problems
  {
  }

  /** The expression of a parenthesised factor, when it does not return. */
  lemma ParenThen(a: seq<Kind>, ps: seq<Problem>, v: Variant, fuel: nat, b: seq<Kind>, q: seq<Problem>)
    requires Peek(a) == LParen
    requires At(Drop(a), ps, ExpressionRun(Drop(a), v, fuel), b, q)
    ensures var e := ExpressionRun(Drop(a), v, fuel);
      At(a, ps, Then(Consume, e), b, q) && (!e.done ==> GroupRun(a, v, fuel) == Then(Consume, e))
  {
    AtAdvance(a, ps);
    AtThen(a, ps, Consume, Drop(a), ps, ExpressionRun(Drop(a), v, fuel), b, q);
  }

  /** A parenthesised factor with its closing ')' or the report of its absence. */
  lemma ParenClose(a: seq<Kind>, ps: seq<Problem>, v: Variant, fuel: nat, b: seq<Kind>, q: seq<Problem>,
                   c: seq<Kind>, qs: seq<Problem>)
    requires Peek(a) == LParen
    requires var e := ExpressionRun(Drop(a), v, fuel); e.done && At(a, ps, Then(Consume, e), b, q)
    requires At(b, q, CloseRun(b), c, qs)
    ensures At(a, ps, GroupRun(a, v, fuel), c, qs) && GroupRun(a, v, fuel).done
  {
    var e := ExpressionRun(Drop(a), v, fuel);
    assert Then(Consume, e).used == 1 + e.used;
    assert DropN(a, 1 + e.used) == DropN(Drop(a), e.used);
    assert GroupRun(a, v, fuel) == Then(Consume, Then(e, CloseRun(b)));
    AtThen(a, ps, Then(Consume, e), b, q, CloseRun(b), c, qs);
    ThenClose(e, CloseRun(b));
  }
}
