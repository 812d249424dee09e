/**
 * The lexer of lex.c as a session object: the globals yytext, yyleng,
 * yylineno and lookaheadToken, the static input_buffer, and the input still
 * to be delivered by fgets, with lex(), match() and advance() as methods.
 */
module Lexer {
  import opened Tokens
  import opened Diagnostics
  import opened LexSpec

  class Session {
    /** The successive results of fgets on the standard input. */
    var loads: seq<string>
    /** How many of them fgets has delivered so far. */
    var next: nat
    /** The contents of input_buffer up to its NUL; empty once fgets has failed. */
    var buf: string
    /** The current lexeme is buf[yytext..yytext + yyleng]. */
    var yytext: nat
    var yyleng: nat
    var yylineno: nat
    /** The lookahead cell lookaheadToken: a token code, or -1 when empty. */
    var lookahead: int
    /** Everything written to stderr, one diagnostic per line. */
    var diags: seq<Diagnostic>

    /** The lexer's state as a value. */
    ghost function State(): Scanner
      reads this
    {
      Scanner(loads, next, buf, yytext, yyleng, yylineno, diags)
    }

    ghost predicate Valid()
      reads this
    {
      State().Valid() && -1 <= lookahead <= 6
    }

    /** The token held in the lookahead cell (EOI stands in when it is empty). */
    ghost function Held(): Kind
      reads this
    {
      match FromCode(lookahead)
      case Some(k) => k
      case None => EOI
    }

    /** The token stream the parser sees: the token in the cell, if any,
        followed by the tokens lex() will return. */
    ghost function Ahead(): seq<Kind>
      reads this
    {
      if lookahead == -1 then State().Upcoming() else Cons(Held(), State().Upcoming())
    }

    /** A session reading text from the standard input, before any call:
        yytext is the empty string, yyleng and yylineno are 0 and the cell is empty. */
    constructor (text: string)
      requires forall i :: 0 <= i < |text| ==> text[i] != '\0'
      ensures Valid()
      ensures loads == Loads(text) && next == 0 && buf == []
      ensures yytext == 0 && yyleng == 0 && yylineno == 0 && lookahead == -1 && diags == []
    {
      LoadsGood(text);
      loads := Loads(text);
      next := 0;
      buf := [];
      yytext := 0;
      yyleng := 0;
      yylineno := 0;
      lookahead := -1;
      diags := [];
    }

    /**
     * lex(): scans from yytext + yyleng for the next token, reading a new load
     * whenever the cursor reaches the buffer's NUL, and returns its kind.
     */
    method Lex() returns (k: Kind)
      requires next <= |loads|
      modifies this
      ensures k == LexResult(old(State())) && State() == LexStep(old(State()))
      ensures lookahead == old(lookahead)
    {
      ghost var s0 := State();
      ghost var w: seq<char> := [];
      ghost var m: nat := 0;
      var cur: nat := yytext + yyleng;
      TrackStart(s0);
      while true
        invariant Tracks(s0, State(), cur, w, m) && lookahead == old(lookahead)
        decreases |loads| - next, if cur <= |buf| then |buf| - cur else 0
      {
        var exhausted, found;
        cur, exhausted, m := Refill(cur, s0, w, m);
        if exhausted {
          return EOI;
        }
        cur, found, k, w := ScanBuffer(cur, s0, w, m);
        if found {
          return;
        }
      }
    }

    /**
     * The loop of lex() that runs while the cursor is at the buffer's NUL: it
     * reads the next load and skips its leading isspace characters, or, when
     * fgets fails, empties the buffer so that lex() returns EOI.
     */
    method Refill(cur: nat, ghost s0: Scanner, ghost w: seq<char>, ghost m: nat)
      returns (cur': nat, exhausted: bool, ghost m': nat)
      requires Tracks(s0, State(), cur, w, m)
      modifies this
      ensures exhausted ==> LexResult(s0) == EOI && State() == LexStep(s0)
      ensures !exhausted ==> Tracks(s0, State(), cur', w, m') && cur' < |buf|
      ensures !exhausted ==> next > old(next) || (buf == old(buf) && cur' == cur)
      ensures next >= old(next) && lookahead == old(lookahead)
    {
      cur', exhausted, m' := cur, false, m;
      while cur' >= |buf|
        invariant Tracks(s0, State(), cur', w, m') && lookahead == old(lookahead)
        invariant yytext == old(yytext) && yyleng == old(yyleng) && diags == old(diags)
        invariant next >= old(next) && (next > old(next) || (buf == old(buf) && cur' == cur))
        decreases |loads| - next
      {
        if next == |loads| {
          TrackExhausted(s0, State(), cur', w, m');
          buf := [];
          exhausted := true;
          return;
        }
        cur' := Reread(cur', s0, w, m');
        m' := m' + 1;
      }
    }

    /** A round of that loop: fgets delivers the next load, yylineno counts it,
        and the cursor passes the load's leading isspace characters. */
    method Reread(cur: nat, ghost s0: Scanner, ghost w: seq<char>, ghost m: nat) returns (cur': nat)
      requires Tracks(s0, State(), cur, w, m) && cur >= |buf| && next < |loads|
      modifies this
      ensures Tracks(s0, State(), cur', w, m + 1)
      ensures next == old(next) + 1 && buf == loads[old(next)] && cur' == SkipSpace(buf, 0)
      ensures lookahead == old(lookahead) && yytext == old(yytext) && yyleng == old(yyleng) && diags == old(diags)
    {
      TrackReread(s0, State(), cur, w, m);
      buf := loads[next];
      next := next + 1;
      yylineno := yylineno + 1;
      cur' := SkipLeading(buf);
    }

    /** The loop of lex() over the leading isspace characters of a fresh load. */
    static method SkipLeading(line: string) returns (i: nat)
      ensures i == SkipSpace(line, 0)
    {
      i := 0;
      while i < |line| && IsSpace(line[i])
        invariant i <= |line| && SkipSpace(line, i) == SkipSpace(line, 0)
      {
        i := i + 1;
      }
    }

    /** The loop of lex() over the isalnum characters of a NUM_OR_ID lexeme. */
    static method SkipWord(line: string, start: nat) returns (i: nat)
      requires start <= |line|
      ensures i == RunEnd(line, start)
    {
      i := start;
      while i < |line| && IsAlnum(line[i])
        invariant start <= i <= |line| && RunEnd(line, i) == RunEnd(line, start)
      {
        i := i + 1;
      }
    }

    /**
     * The character loop of lex() over the buffer from cur to its NUL: it sets
     * yytext and yyleng at each character, returns at a token, passes over
     * blanks and warns about illegal characters.
     */
    method ScanBuffer(cur: nat, ghost s0: Scanner, ghost w: seq<char>, ghost m: nat)
      returns (cur': nat, found: bool, k: Kind, ghost w': seq<char>)
      requires Tracks(s0, State(), cur, w, m)
      modifies this
      ensures found ==> k == LexResult(s0) && State() == LexStep(s0)
      ensures !found ==> Tracks(s0, State(), cur', w', m) && cur' >= |buf|
      ensures buf == old(buf) && next == old(next) && lookahead == old(lookahead)
    {
      cur', found, k, w' := cur, false, EOI, w;
      while cur' < |buf|
        invariant Tracks(s0, State(), cur', w', m) && buf == old(buf) && next == old(next) && lookahead == old(lookahead)
      {
        var c := buf[cur'];
        var single := Single(c);
        if single.Some? {
          TrackSingle(s0, State(), cur', w', m);
        } else if IsBlank(c) {
          TrackBlank(s0, State(), cur', w', m);
        } else if !IsAlnum(c) {
          TrackIllegal(s0, State(), cur', w', m);
        } else {
          TrackWord(s0, State(), cur', RunEnd(buf, cur'), w', m);
        }
        yytext := cur';
        yyleng := 1;
        if single.Some? {
          found, k := true, single.value;
          break;
        } else if IsBlank(c) {
        } else if !IsAlnum(c) {
          diags := diags + [IllegalInput(c)];
          w' := w' + [c];
        } else {
          cur' := SkipWord(buf, cur');
          yyleng := cur' - yytext;
          found, k := true, NumOrId;
          break;
        }
        cur' := cur' + 1;
      }
    }

    /** match(token): fills an empty cell with lex() and compares its code with token. */
    method Match(token: int) returns (b: bool)
      requires Valid()
      modifies this
      ensures Valid()
      ensures b <==> token == lookahead
      ensures lookahead == Code(Peek(Ahead()))
      ensures Ahead() == old(Ahead())
      ensures old(lookahead) != -1 ==> State() == old(State()) && lookahead == old(lookahead)
      ensures old(lookahead) == -1 ==> State() == LexStep(old(State())) && lookahead == Code(LexResult(old(State())))
      ensures old(diags) <= diags && Reported(diags) == Reported(old(diags))
      ensures Problems(diags) == Problems(old(diags))
    {
      ghost var s0 := State();
      if lookahead == -1 {
        var k := Lex();
        lookahead := Code(k);
        LexStepState(s0);
        LexStepStream(s0);
        Refilled(s0, k);
      } else {
        HeldCode();
        PeekDropCons(Held(), State().Upcoming());
      }
      b := token == lookahead;
    }

    /** advance(): replaces the cell with the result of lex(). The stream loses the
        token that was in the cell; lexing into an empty cell skips nothing. */
    method Advance()
      requires Valid()
      modifies this
      ensures Valid()
      ensures lookahead == Code(Peek(Ahead()))
      ensures Ahead() == if old(lookahead) == -1 then old(Ahead()) else Drop(old(Ahead()))
      ensures State() == LexStep(old(State())) && lookahead == Code(LexResult(old(State())))
      ensures old(diags) <= diags && Reported(diags) == Reported(old(diags))
      ensures Problems(diags) == Problems(old(diags))
    {
      ghost var s0 := State();
      ghost var held := if lookahead == -1 then EOI else Held();
      var k := Lex();
      lookahead := Code(k);
      LexStepState(s0);
      LexStepStream(s0);
      PeekDropCons(held, s0.Upcoming());
      Refilled(s0, k);
    }

    /** fprintf(stderr, ...) of one parser message. */
    method Report(d: Diagnostic)
      requires Valid()
      requires !d.IllegalInput?
      modifies this
      ensures Valid() && Ahead() == old(Ahead())
      ensures diags == old(diags) + [d] && Reported(diags) == Reported(old(diags)) + [d]
      ensures Problems(diags) == Problems(old(diags)) + [Tag(d)]
      ensures State().(diags := old(diags)) == old(State()) && lookahead == old(lookahead)
    {
      ReportedMessage(diags, d);
      ProblemsMessage(diags, d);
      diags := diags + [d];
    }

    lemma HeldCode()
      requires 0 <= lookahead <= 6
      ensures Code(Held()) == lookahead
    {
      EncodeDecode(lookahead);
    }

    /** The facts about a cell just filled with the result k of lex() on s0. */
    lemma Refilled(s0: Scanner, k: Kind)
      requires s0.Valid() && Valid() && lookahead == Code(k)
      requires k == LexResult(s0) && State() == LexStep(s0)
      ensures Ahead() == Cons(k, State().Upcoming())
      ensures lookahead == Code(Peek(Ahead()))
      ensures s0.diags <= diags && Reported(diags) == Reported(s0.diags)
    {
      DecodeEncode(k);
      PeekDropCons(k, State().Upcoming());
      ReportedWarnings(s0.diags, OutcomeOf(s0).warnings);
    }
  }
}
