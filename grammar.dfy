/**
 * The grammar the comments of parser.c describe, as syntax trees, and the
 * theorem that the corrected recogniser accepts every program of it without
 * a single diagnostic. (The code as written does not: see Behaviour.)
 *
 *   statements -> expression ';' statements | empty
 *   expression -> term ('+' term)*
 *   term       -> factor ('*' factor)*
 *   factor     -> NUM_OR_ID | '(' expression ')'
 */
module Grammar {
  import opened Tokens
  import opened LexSpec
  import opened Recognizer

  datatype Expr = Sum(head: Trm) | Add(head: Trm, rest: Expr)
  datatype Trm = Product(head: Fac) | Mul(head: Fac, rest: Trm)
  datatype Fac = Atom | Nested(inner: Expr)

  /** The tokens of every expression, term and factor begin with NUM_OR_ID or '('. */
  predicate Opens(ks: seq<Kind>)
  {
    Peek(ks) == NumOrId || Peek(ks) == LParen
  }

  function ExprToks(e: Expr): (ks: seq<Kind>)
    ensures Opens(ks)
  {
    match e
    case Sum(t) => TrmToks(t)
    case Add(t, r) => TrmToks(t) + [Plus] + ExprToks(r)
  }

  function TrmToks(t: Trm): (ks: seq<Kind>)
    ensures Opens(ks)
  {
    match t
    case Product(f) => FacToks(f)
    case Mul(f, r) => FacToks(f) + [Times] + TrmToks(r)
  }

  function FacToks(f: Fac): (ks: seq<Kind>)
    ensures Opens(ks)
  {
    match f
    case Atom => [NumOrId]
    case Nested(e) => [LParen] + ExprToks(e) + [RParen]
  }

  /** The tokens of a program: each expression followed by its ';'. */
  function ProgramToks(es: seq<Expr>): seq<Kind>
  {
    if es == [] then [] else ExprToks(es[0]) + ([Semi] + ProgramToks(es[1..]))
  }

  function ExprSize(e: Expr): nat
  {
    match e
    case Sum(t) => TrmSize(t) + 1
    case Add(t, r) => TrmSize(t) + ExprSize(r) + 1
  }

  function TrmSize(t: Trm): nat
  {
    match t
    case Product(f) => FacSize(f) + 1
    case Mul(f, r) => FacSize(f) + TrmSize(r) + 1
  }

  function FacSize(f: Fac): nat
  {
    match f
    case Atom => 0
    case Nested(e) => ExprSize(e) + 1
  }

  /** A token sequence followed by the rest of the stream. */
  lemma DropPrefix(x: seq<Kind>, w: seq<Kind>)
    ensures DropN(x + w, |x|) == w
  {
    DropNSlice(x + w, |x|);
    assert (x + w)[|x|..] == w;
  }

  /** The tokens of a product or a sum, regrouped around its operator. */
  lemma Regroup(a: seq<Kind>, op: Kind, b: seq<Kind>, w: seq<Kind>)
    ensures (a + [op] + b) + w == a + ([op] + (b + w))
  {
  }

  lemma OpensAppend(x: seq<Kind>, w: seq<Kind>)
    requires Opens(x)
    ensures Opens(x + w) && Peek(x + w) == Peek(x)
  {
  }

  /** Legal_lookahead returns 1 at once on the first token of a factor. */
  lemma LegalAtFirst(x: seq<Kind>, fuel: nat)
    requires Opens(x)
    ensures Legal(x, Corrected, fuel) == Recovery(true, true, 0)
    ensures LegalRun(Legal(x, Corrected, fuel)) == Run(true, 0, [])
  {
    CorrectedKinds();
    assert Code(Peek(x)) in FirstKinds(Corrected);
    RecoverAtOnce(FirstKinds(Corrected), x, fuel);
  }

  /** A factor, then the '*' loop on what it leaves. */
  function TimesBody(x: seq<Kind>, fuel: nat): Run
  {
    var f := FactorRun(x, Corrected, fuel);
    Then(f, TimesLoop(DropN(x, f.used), Corrected, fuel))
  }

  /** A term, then the '+' loop on what it leaves. */
  function PlusBody(x: seq<Kind>, fuel: nat): Run
  {
    var t := TermRun(x, Corrected, fuel);
    Then(t, PlusLoop(DropN(x, t.used), Corrected, fuel))
  }

  /** A round of the '*' loop: the '*', then a factor and the rest of the loop. */
  lemma TimesLoopAt(u: seq<Kind>, fuel: nat)
    requires Peek(u) == Times
    ensures TimesLoop(u, Corrected, fuel) == Then(Consume, TimesBody(Drop(u), fuel))
  {
  }

  /** A round of the '+' loop: the '+', then a term and the rest of the loop. */
  lemma PlusLoopAt(u: seq<Kind>, fuel: nat)
    requires Peek(u) == Plus
    ensures PlusLoop(u, Corrected, fuel) == Then(Consume, PlusBody(Drop(u), fuel))
  {
  }

  /** Corrected, term() at the first token of a factor is its factor and '*' loop. */
  lemma TermAtFirst(x: seq<Kind>, fuel: nat)
    requires Opens(x)
    ensures TermRun(x, Corrected, fuel) == TimesBody(x, fuel)
  {
    LegalAtFirst(x, fuel);
    DoneThen(TimesBody(x, fuel));
  }

  /** Corrected, expression() at the first token of a factor is its term and '+' loop. */
  lemma ExpressionAtFirst(x: seq<Kind>, fuel: nat)
    requires Opens(x)
    ensures ExpressionRun(x, Corrected, fuel) == PlusBody(x, fuel)
  {
    LegalAtFirst(x, fuel);
    DoneThen(PlusBody(x, fuel));
  }

  /** Corrected, factor() at the first token of a factor is its operand. */
  lemma FactorAtFirst(x: seq<Kind>, fuel: nat)
    requires Opens(x)
    ensures FactorRun(x, Corrected, fuel) == OperandRun(x, Corrected, fuel)
  {
    LegalAtFirst(x, fuel);
    DoneThen(OperandRun(x, Corrected, fuel));
  }

  /** A factor is accepted: its tokens are consumed and nothing is reported. */
  lemma {:induction false} FacAccepted(f: Fac, w: seq<Kind>, fuel: nat)
    ensures FactorRun(FacToks(f) + w, Corrected, fuel) == Run(true, |FacToks(f)|, [])
    decreases FacSize(f), 0
  {
    var x := FacToks(f) + w;
    OpensAppend(FacToks(f), w);
    FactorAtFirst(x, fuel);
    OperandCases(x, Corrected, fuel);
    match f
    case Atom =>
    case Nested(e) =>
      var rest := [RParen] + w;
      assert Drop(x) == ExprToks(e) + rest;
      ExprAccepted(e, rest, fuel);
      DropPrefix(ExprToks(e), rest);
      assert CloseRun(rest) == Consume;
  }

  /** The factors of a term: all consumed and nothing reported, as long as
      no '*' follows. */
  lemma {:induction false} TrmAccepted(t: Trm, w: seq<Kind>, fuel: nat)
    requires Peek(w) != Times
    ensures TimesBody(TrmToks(t) + w, fuel) == Run(true, |TrmToks(t)|, [])
    decreases TrmSize(t), 1
  {
    match t
    case Product(f) =>
      FacAccepted(f, w, fuel);
      DropPrefix(FacToks(f), w);
    case Mul(f, r) =>
      var rest := [Times] + (TrmToks(r) + w);
      var x := FacToks(f) + rest;
      Regroup(FacToks(f), Times, TrmToks(r), w);
      FacAccepted(f, rest, fuel);
      DropPrefix(FacToks(f), rest);
      assert TimesBody(x, fuel) == Then(FactorRun(x, Corrected, fuel), TimesLoop(rest, Corrected, fuel));
      assert Drop(rest) == TrmToks(r) + w;
      TimesLoopAt(rest, fuel);
      TrmAccepted(r, w, fuel);
  }

  /** A term is accepted by term(), as long as no '*' follows. */
  lemma TermAccepted(t: Trm, w: seq<Kind>, fuel: nat)
    requires Peek(w) != Times
    ensures TermRun(TrmToks(t) + w, Corrected, fuel) == Run(true, |TrmToks(t)|, [])
    decreases TrmSize(t), 2
  {
    OpensAppend(TrmToks(t), w);
    TermAtFirst(TrmToks(t) + w, fuel);
    TrmAccepted(t, w, fuel);
  }

  /** The terms of an expression: all consumed and nothing reported, as long
      as no '+' or '*' follows. */
  lemma {:induction false} PlusAccepted(e: Expr, w: seq<Kind>, fuel: nat)
    requires Peek(w) != Plus && Peek(w) != Times
    ensures PlusBody(ExprToks(e) + w, fuel) == Run(true, |ExprToks(e)|, [])
    decreases ExprSize(e), 1
  {
    match e
    case Sum(t) =>
      TermAccepted(t, w, fuel);
      DropPrefix(TrmToks(t), w);
    case Add(t, r) =>
      var rest := [Plus] + (ExprToks(r) + w);
      var x := TrmToks(t) + rest;
      Regroup(TrmToks(t), Plus, ExprToks(r), w);
      TermAccepted(t, rest, fuel);
      DropPrefix(TrmToks(t), rest);
      assert PlusBody(x, fuel) == Then(TermRun(x, Corrected, fuel), PlusLoop(rest, Corrected, fuel));
      assert Drop(rest) == ExprToks(r) + w;
      PlusLoopAt(rest, fuel);
      PlusAccepted(r, w, fuel);
  }

  /** An expression is accepted by expression(): its tokens are consumed and
      nothing is reported, as long as no '+' or '*' follows. */
  lemma ExprAccepted(e: Expr, w: seq<Kind>, fuel: nat)
    requires Peek(w) != Plus && Peek(w) != Times
    ensures ExpressionRun(ExprToks(e) + w, Corrected, fuel) == Run(true, |ExprToks(e)|, [])
    decreases ExprSize(e), 2
  {
    OpensAppend(ExprToks(e), w);
    ExpressionAtFirst(ExprToks(e) + w, fuel);
    PlusAccepted(e, w, fuel);
  }

  /** A statement of the grammar: the expression and its ';'. */
  lemma StatementAccepted(e: Expr, w: seq<Kind>, fuel: nat)
    ensures StatementRun(ExprToks(e) + ([Semi] + w), Corrected, fuel) == Run(true, |ExprToks(e)| + 1, [])
  {
    var tail := [Semi] + w;
    ExprAccepted(e, tail, fuel);
    DropPrefix(ExprToks(e), tail);
    assert EndRun(tail) == Consume;
  }

  /** The tokens of a program are those of its first statement, then the rest. */
  lemma ProgramSplit(es: seq<Expr>)
    requires es != []
    ensures ProgramToks(es) == ExprToks(es[0]) + ([Semi] + ProgramToks(es[1..]))
    ensures DropN(ProgramToks(es), |ExprToks(es[0])| + 1) == ProgramToks(es[1..])
    ensures Peek(ProgramToks(es)) != EOI
    ensures |ProgramToks(es)| == |ExprToks(es[0])| + 1 + |ProgramToks(es[1..])|
  {
    var x, tail := ExprToks(es[0]), [Semi] + ProgramToks(es[1..]);
    DropPrefix(x, tail);
    DropNAdd(x + tail, |x|, 1);
    OpensAppend(x, tail);
  }

  /** A statement that consumes its n tokens and reports nothing, followed by
      statements that consume the rest and report nothing. */
  lemma StatementsStep(u: seq<Kind>, w: seq<Kind>, n: nat, fuel: nat, count: nat)
    requires count > 0 && Peek(u) != EOI && |u| == n + |w| && DropN(u, n) == w
    requires StatementRun(u, Corrected, fuel) == Run(true, n, [])
    requires StatementsRun(w, Corrected, fuel, count - 1) == Run(true, |w|, [])
    ensures StatementsRun(u, Corrected, fuel, count) == Run(true, |u|, [])
  {
    assert StatementsRun(u, Corrected, fuel, count) == Then(Run(true, n, []), Run(true, |w|, []));
  }

  /**
   * A program of the grammar is accepted by the corrected recogniser:
   * statements() returns at the end of the input having consumed every token
   * and reported nothing, given room for as many statements as it has.
   */
  lemma {:induction false} ProgramAccepted(es: seq<Expr>, fuel: nat, count: nat)
    requires count >= |es|
    ensures StatementsRun(ProgramToks(es), Corrected, fuel, count) == Run(true, |ProgramToks(es)|, [])
    decreases es
  {
    if es != [] {
      var w := ProgramToks(es[1..]);
      ProgramSplit(es);
      StatementAccepted(es[0], w, fuel);
      ProgramAccepted(es[1..], fuel, count - 1);
      StatementsStep(ProgramToks(es), w, |ExprToks(es[0])| + 1, fuel, count);
    }
  }
}
